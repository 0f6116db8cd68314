/**
 * The chess-clock side of the terminal game: the Arduino clock reports the
 * two remaining times over a serial line in one of three text formats,
 * which are normalised to "P1:<black>,P2:<white>" and then read into the
 * two timers; times are shown as MM:SS.  The serial port itself is not
 * modelled: a pending line and the success of a write are parameters.
 */
module Timers {
  import opened Wrappers
  import opened Text

  /** Both timers start at, and reset to, ten minutes. */
  const DefaultSeconds := 600

  /**
   * `format_time` (clock manager and monitoring server alike): minutes and
   * seconds, each at least two digits, joined by a colon.  Python's `//`
   * and `%` floor; for the positive divisor 60 Dafny's Euclidean
   * operators give the same results, negative times included.
   */
  function FormatTime(seconds: int): string
  {
    Pad2(seconds / 60) + ":" + Pad2(seconds % 60)
  }

  /** Every character of a rendered time is a digit, a minus sign or the colon. */
  predicate TimeText(s: string)
  {
    forall i :: 0 <= i < |s| ==> IsDigit(s[i]) || s[i] == '-' || s[i] == ':'
  }

  lemma Pad2Chars(n: int)
    ensures TimeText(Pad2(n)) && |Pad2(n)| >= 1
  {
    IntToStringChars(n);
  }

  /** Minutes and seconds fields of a rendering, split at the colon. */
  lemma SplitTime(seconds: int)
    ensures SplitOn(FormatTime(seconds), ':') == [Pad2(seconds / 60), Pad2(seconds % 60)]
  {
    var m, r := seconds / 60, seconds % 60;
    Pad2RoundTrip(m);
    Pad2RoundTrip(r);
    SplitAtFirst(Pad2(m), ':', Pad2(r));
    SplitNoSeparator(Pad2(r), ':');
    assert FormatTime(seconds) == Pad2(m) + [':'] + Pad2(r);
  }

  /** A seconds field is always two characters wide. */
  lemma Pad2Width(r: int)
    requires 0 <= r < 60
    ensures |Pad2(r)| == 2
  {
    if r >= 10 {
      assert NatToString(r) == NatToString(r / 10) + [DigitChar(r % 10)];
    }
  }

  /**
   * The rendering reads back: it splits at its one colon into minutes and
   * a two-digit seconds field below 60, and minutes * 60 + seconds is the
   * time rendered.
   */
  lemma FormatTimeRoundTrip(seconds: int)
    ensures var parts := SplitOn(FormatTime(seconds), ':');
      |parts| == 2 && |parts[1]| == 2
      && ParseInt(parts[0]).Some? && ParseInt(parts[1]).Some?
      && 0 <= ParseInt(parts[1]).value < 60
      && ParseInt(parts[0]).value * 60 + ParseInt(parts[1]).value == seconds
  {
    var m, r := seconds / 60, seconds % 60;
    SplitTime(seconds);
    Pad2RoundTrip(m);
    Pad2RoundTrip(r);
    Pad2Width(r);
  }

  /** A rendering holds only digits, minus signs and its colon. */
  lemma FormatTimeChars(seconds: int)
    ensures TimeText(FormatTime(seconds))
  {
    Pad2Chars(seconds / 60);
    Pad2Chars(seconds % 60);
  }

  /** Different times never render alike. */
  lemma FormatTimeInjective(a: int, b: int)
    requires FormatTime(a) == FormatTime(b)
    ensures a == b
  {
    FormatTimeRoundTrip(a);
    FormatTimeRoundTrip(b);
  }

  const BlackLabel := "검은색: "
  const WhiteLabel := " 흰색: "

  /** `get_timer_display`: the black time, then a bar, then the white time, each labelled. */
  function TimerDisplay(black: int, white: int): string
  {
    BlackLabel + FormatTime(black) + " | " + WhiteLabel[1..] + FormatTime(white)
  }

  /** Two texts without a bar, joined by one, split back into the two. */
  lemma BarSplit(x: string, y: string)
    requires forall i :: 0 <= i < |x| ==> x[i] != '|'
    requires forall i :: 0 <= i < |y| ==> y[i] != '|'
    ensures SplitOn(x + ['|'] + y, '|') == [x, y]
  {
    SplitAtFirst(x, '|', y);
    SplitNoSeparator(y, '|');
  }

  /** Equal texts with the same fixed ends have equal middles. */
  lemma CancelAround(p: string, u: string, v: string, q: string)
    requires p + u + q == p + v + q
    ensures u == v
  {
    assert |u| == |v|;
    assert u == (p + u + q)[|p|..|p| + |u|];
    assert v == (p + v + q)[|p|..|p| + |v|];
  }

  /** The display text splits at its bar into the labelled black and white halves. */
  lemma DisplayHalves(black: int, white: int)
    ensures SplitOn(TimerDisplay(black, white), '|')
         == [BlackLabel + FormatTime(black) + " ", WhiteLabel + FormatTime(white)]
  {
    var a, b := FormatTime(black), FormatTime(white);
    FormatTimeChars(black);
    FormatTimeChars(white);
    TimeTextBarFree(a);
    TimeTextBarFree(b);
    assert BarFree(BlackLabel) && BarFree(WhiteLabel) && BarFree(" ");
    BarFreeConcat(BlackLabel, a);
    BarFreeConcat(BlackLabel + a, " ");
    BarFreeConcat(WhiteLabel, b);
    DisplayJoin(BlackLabel, a, WhiteLabel, b);
    var x, y := BlackLabel + a + " ", WhiteLabel + b;
    BarSplit(x, y);
  }

  /** The display joins its halves at the bar, the white label's blank going to the black half. */
  lemma DisplayJoin(bl: string, a: string, wl: string, b: string)
    requires |wl| > 0 && wl[0] == ' '
    ensures bl + a + " | " + wl[1..] + b == (bl + a + " ") + ['|'] + (wl + b)
  {
    assert wl == [' '] + wl[1..];
  }

  /** The display determines both times: no two clock states show the same line. */
  lemma TimerDisplayInjective(b1: int, w1: int, b2: int, w2: int)
    requires TimerDisplay(b1, w1) == TimerDisplay(b2, w2)
    ensures b1 == b2 && w1 == w2
  {
    DisplayHalves(b1, w1);
    DisplayHalves(b2, w2);
    CancelAround(BlackLabel, FormatTime(b1), FormatTime(b2), " ");
    CancelAround(WhiteLabel, FormatTime(w1), FormatTime(w2), "");
    FormatTimeInjective(b1, b2);
    FormatTimeInjective(w1, w2);
  }

  /** The last part of a split log line that, once stripped, starts with `prefix`. */
  function LastWith(parts: seq<string>, prefix: string): (r: Option<string>)
    ensures r.Some? ==> StartsWith(r.value, prefix)
  {
    if |parts| == 0 then None
    else if StartsWith(Strip(parts[|parts| - 1]), prefix) then Some(Strip(parts[|parts| - 1]))
    else LastWith(parts[..|parts| - 1], prefix)
  }

  /** A log field with its tag and every 's' removed, stripped. */
  function LogField(part: string, tag: string): string
    requires tag != ""
  {
    Strip(ReplaceAll(ReplaceAll(part, tag, ""), "s", ""))
  }

  /**
   * `parse_timer_data`: "DATA: P1:a,P2:b" loses its tag; a line already
   * in the "P1:a,P2:b" form is kept; a "LOG: ... | P1: as | P2: bs | ..."
   * line is rebuilt from its last P1 and P2 fields; anything else gives
   * nothing.
   */
  function TimerLine(data: string): Option<string>
  {
    if StartsWith(data, "DATA:") && Contains(data, "P1:") && Contains(data, "P2:") then
      var t := Strip(ReplaceAll(data, "DATA:", ""));
      if StartsWith(t, "P1:") && Contains(t, ",P2:") then Some(t) else None
    else if StartsWith(data, "P1:") && Contains(data, ",P2:") then Some(data)
    else if StartsWith(data, "LOG:") && Contains(data, "P1:") && Contains(data, "P2:") then
      var parts := SplitOn(data, '|');
      var p1, p2 := LastWith(parts, "P1:"), LastWith(parts, "P2:");
      if p1.Some? && p2.Some? then Some("P1:" + LogField(p1.value, "P1:") + ",P2:" + LogField(p2.value, "P2:"))
      else None
    else None
  }

  /** `a + b + c` contains `b`. */
  lemma ContainsMiddle(a: string, b: string, c: string)
    ensures Contains(a + b + c, b)
  {
    assert (a + b + c)[|a|..|a| + |b|] == b;
    ContainsAt(a + b + c, b, |a|);
  }

  /** A line already in the direct form is its own normalisation. */
  lemma DirectFormFixed(t: string)
    requires StartsWith(t, "P1:") && Contains(t, ",P2:")
    ensures TimerLine(t) == Some(t)
  {
    assert t[..3] == "P1:";
    assert !StartsWith(t, "DATA:") by {
      if |t| >= 5 { assert t[..5][0] == t[..3][0]; }
    }
  }

  /** A rebuilt log line "P1:x,P2:y" is in the direct form. */
  lemma RebuiltIsDirect(x: string, y: string)
    ensures StartsWith("P1:" + x + ",P2:" + y, "P1:") && Contains("P1:" + x + ",P2:" + y, ",P2:")
  {
    ContainsMiddle("P1:" + x, ",P2:", y);
    assert ("P1:" + x + ",P2:" + y)[..3] == "P1:";
  }

  /**
   * Every normalised line is in the direct form and is its own
   * normalisation, so normalising twice changes nothing.
   */
  lemma TimerLineNormalForm(data: string)
    ensures var r := TimerLine(data);
      r.Some? ==> StartsWith(r.value, "P1:") && Contains(r.value, ",P2:") && TimerLine(r.value) == r
  {
    var r := TimerLine(data);
    if r.Some? {
      if !(StartsWith(data, "DATA:") && Contains(data, "P1:") && Contains(data, "P2:"))
        && !(StartsWith(data, "P1:") && Contains(data, ",P2:")) {
        var parts := SplitOn(data, '|');
        var x, y := LogField(LastWith(parts, "P1:").value, "P1:"), LogField(LastWith(parts, "P2:").value, "P2:");
        assert r.value == "P1:" + x + ",P2:" + y;
        RebuiltIsDirect(x, y);
      }
      DirectFormFixed(r.value);
    }
  }

  /** The direct form the clock sends: black (P1) first, white (P2) second. */
  function FormatTimerLine(black: int, white: int): string
  {
    "P1:" + IntToString(black) + ",P2:" + IntToString(white)
  }

  /** A field "tag:n" splits at its colon into the tag and `str(n)`. */
  lemma SplitField(tag: string, n: int)
    requires forall i :: 0 <= i < |tag| ==> tag[i] != ':'
    ensures SplitOn(tag + ":" + IntToString(n), ':') == [tag, IntToString(n)]
  {
    IntToStringChars(n);
    SplitAtFirst(tag, ':', IntToString(n));
    SplitNoSeparator(IntToString(n), ':');
    assert tag + ":" + IntToString(n) == tag + [':'] + IntToString(n);
  }

  /**
   * `update_timers_from_data`: both "P1:" and "P2:" present, exactly two
   * comma-separated fields, and the text after each field's first colon
   * parses as an integer; P1 is black's time and P2 white's.  Any failure
   * (a missing colon raises `IndexError`, a bad number `ValueError`) gives
   * nothing.
   */
  function TimerValues(data: string): Option<(int, int)>
  {
    if Contains(data, "P1:") && Contains(data, "P2:") then
      var parts := SplitOn(data, ',');
      if |parts| == 2 then
        var f1, f2 := SplitOn(parts[0], ':'), SplitOn(parts[1], ':');
        if |f1| >= 2 && |f2| >= 2 && ParseInt(f1[1]).Some? && ParseInt(f2[1]).Some? then
          Some((ParseInt(f1[1]).value, ParseInt(f2[1]).value))
        else None
      else None
    else None
  }

  /** `str(n)` holds none of the separators and tags the clock lines use. */
  lemma IntTextFree(n: int, c: char)
    requires !IsDigit(c) && c != '-'
    ensures forall i :: 0 <= i < |IntToString(n)| ==> IntToString(n)[i] != c
  {
    IntToStringChars(n);
  }

  /** The direct form holds its tags where the checks look for them. */
  lemma FormattedLineTags(black: int, white: int)
    ensures var line := FormatTimerLine(black, white);
      StartsWith(line, "P1:") && Contains(line, ",P2:") && Contains(line, "P1:") && Contains(line, "P2:")
  {
    DirectTags(IntToString(black), IntToString(white));
  }

  /** "P1:a,P2:b" starts with the black tag and holds both tags. */
  lemma DirectTags(a: string, b: string)
    ensures var line := "P1:" + a + ",P2:" + b;
      StartsWith(line, "P1:") && Contains(line, ",P2:") && Contains(line, "P1:") && Contains(line, "P2:")
  {
    var line := "P1:" + a + ",P2:" + b;
    RebuiltIsDirect(a, b);
    ContainsMiddle("", "P1:", a + ",P2:" + b);
    assert "" + "P1:" + (a + ",P2:" + b) == line;
    ContainsMiddle("P1:" + a + ",", "P2:", b);
    CommaTag("P1:" + a, b);
  }

  lemma CommaTag(x: string, b: string)
    ensures x + "," + "P2:" + b == x + ",P2:" + b
  {
  }

  /** The direct form splits at its comma into the two fields. */
  lemma FormattedLineSplit(black: int, white: int)
    ensures SplitOn(FormatTimerLine(black, white), ',') == ["P1:" + IntToString(black), "P2:" + IntToString(white)]
  {
    var a, b := IntToString(black), IntToString(white);
    IntTextFree(black, ',');
    IntTextFree(white, ',');
    assert forall i :: 0 <= i < |"P1:" + a| ==> ("P1:" + a)[i] != ',' by {
      forall i | 0 <= i < |"P1:" + a| ensures ("P1:" + a)[i] != ',' {
        if i >= 3 { assert ("P1:" + a)[i] == a[i - 3]; }
      }
    }
    assert forall i :: 0 <= i < |"P2:" + b| ==> ("P2:" + b)[i] != ',' by {
      forall i | 0 <= i < |"P2:" + b| ensures ("P2:" + b)[i] != ',' {
        if i >= 3 { assert ("P2:" + b)[i] == b[i - 3]; }
      }
    }
    SplitAtFirst("P1:" + a, ',', "P2:" + b);
    SplitNoSeparator("P2:" + b, ',');
    assert FormatTimerLine(black, white) == ("P1:" + a) + [','] + ("P2:" + b);
  }

  /** A field "Pk:n" yields `n` after its colon. */
  lemma FieldValue(tag: string, n: int)
    requires tag == "P1" || tag == "P2"
    ensures var f := SplitOn(tag + ":" + IntToString(n), ':');
      |f| >= 2 && ParseInt(f[1]) == Some(n)
  {
    SplitField(tag, n);
    IntRoundTrip(n);
  }

  /**
   * The direct form round-trips: it is its own normalisation and reads
   * back as exactly the two times it was built from, black first.
   */
  lemma TimerLineRoundTrip(black: int, white: int)
    ensures TimerLine(FormatTimerLine(black, white)) == Some(FormatTimerLine(black, white))
    ensures TimerValues(FormatTimerLine(black, white)) == Some((black, white))
  {
    FormattedLineTags(black, white);
    DirectFormFixed(FormatTimerLine(black, white));
    FormattedLineSplit(black, white);
    FieldValue("P1", black);
    FieldValue("P2", white);
    ColonTag("P1", "P1:", IntToString(black));
    ColonTag("P2", "P2:", IntToString(white));
  }

  lemma ColonTag(tag: string, tagged: string, v: string)
    requires tagged == tag + ":"
    ensures tag + ":" + v == tagged + v
  {
  }

  /** Removing the "DATA:" tag from a tagged line whose body has no 'D' leaves the blank and the body. */
  lemma DataTagRemoved(line: string)
    requires forall i :: 0 <= i < |line| ==> line[i] != 'D'
    ensures ReplaceAll("DATA: " + line, "DATA:", "") == " " + line
  {
    BlankLedFree(line, 'D');
    DataSplit(line);
    TagRemoved("DATA:", " " + line);
  }

  lemma BlankLedFree(line: string, c: char)
    requires c != ' ' && forall i :: 0 <= i < |line| ==> line[i] != c
    ensures forall i :: 0 <= i < |" " + line| ==> (" " + line)[i] != c
  {
    var rest := " " + line;
    forall i | 0 <= i < |rest| ensures rest[i] != c {
      if i >= 1 { assert rest[i] == line[i - 1]; }
    }
  }

  lemma DataSplit(line: string)
    ensures "DATA: " + line == "DATA:" + (" " + line)
  {
  }

  /** A leading tag is removed, and nothing after it starts like it. */
  lemma TagRemoved(tag: string, rest: string)
    requires tag != "" && forall i :: 0 <= i < |rest| ==> rest[i] != tag[0]
    ensures ReplaceAll(tag + rest, tag, "") == rest
  {
    ReplaceAbsent(rest, tag, "");
    ReplacePrefix(tag, rest, "");
  }

  /** The direct form has no 'D', begins with 'P' and ends with a digit. */
  lemma FormattedLineChars(black: int, white: int)
    ensures var line := FormatTimerLine(black, white);
      (forall i :: 0 <= i < |line| ==> line[i] != 'D')
      && |line| > 0 && !IsSpace(line[0]) && !IsSpace(line[|line| - 1])
  {
    var a, b := IntToString(black), IntToString(white);
    var line := FormatTimerLine(black, white);
    IntToStringChars(black);
    IntToStringChars(white);
    forall i | 0 <= i < |line| ensures line[i] != 'D' {
      if 3 <= i < 3 + |a| { assert line[i] == a[i - 3]; }
      else if i >= 7 + |a| { assert line[i] == b[i - 7 - |a|]; }
    }
    assert line[|line| - 1] == b[|b| - 1];
  }

  /** The tagged branch of the normalisation, on its own. */
  lemma TaggedBranch(data: string, t: string)
    requires StartsWith(data, "DATA:") && Contains(data, "P1:") && Contains(data, "P2:")
    requires Strip(ReplaceAll(data, "DATA:", "")) == t && StartsWith(t, "P1:") && Contains(t, ",P2:")
    ensures TimerLine(data) == Some(t)
  {
  }

  /** A tagged line holds its tags where the checks look for them. */
  lemma TaggedLineTags(black: int, white: int)
    ensures var data := "DATA: " + FormatTimerLine(black, white);
      StartsWith(data, "DATA:") && Contains(data, "P1:") && Contains(data, "P2:")
  {
    TaggedTags(IntToString(black), IntToString(white));
  }

  lemma TaggedTags(a: string, b: string)
    ensures var data := "DATA: " + ("P1:" + a + ",P2:" + b);
      StartsWith(data, "DATA:") && Contains(data, "P1:") && Contains(data, "P2:")
  {
    var data := "DATA: " + ("P1:" + a + ",P2:" + b);
    assert data[..5] == "DATA:";
    ContainsMiddle("DATA: ", "P1:", a + ",P2:" + b);
    assert "DATA: " + "P1:" + (a + ",P2:" + b) == data;
    ContainsMiddle("DATA: P1:" + a + ",", "P2:", b);
    assert "DATA: P1:" + a + "," + "P2:" + b == data;
  }

  /** The tagged form "DATA: P1:a,P2:b" normalises to the direct form. */
  lemma DataLineRoundTrip(black: int, white: int)
    ensures TimerLine("DATA: " + FormatTimerLine(black, white)) == Some(FormatTimerLine(black, white))
  {
    var line := FormatTimerLine(black, white);
    FormattedLineTags(black, white);
    FormattedLineChars(black, white);
    DataTagRemoved(line);
    StripPadded(line);
    TaggedLineTags(black, white);
    TaggedBranch("DATA: " + line, line);
  }

  /** Removing the tag from "Pk: ns" leaves " ns": nothing after the tag starts like it. */
  lemma LogTagRemoved(tag: string, n: int)
    requires |tag| == 3 && tag[0] == 'P'
    ensures ReplaceAll(tag + " " + IntToString(n) + "s", tag, "") == " " + IntToString(n) + "s"
  {
    var a := IntToString(n);
    IntTextFree(n, 'P');
    SecondsFree(a, 'P');
    SecondsJoin(tag, a);
    TagRemoved(tag, " " + a + "s");
  }

  /** " ns" holds a character other than the blank and 's' only where `n` does. */
  lemma SecondsFree(a: string, c: char)
    requires c != ' ' && c != 's' && forall i :: 0 <= i < |a| ==> a[i] != c
    ensures forall i :: 0 <= i < |" " + a + "s"| ==> (" " + a + "s")[i] != c
  {
    var rest := " " + a + "s";
    forall i | 0 <= i < |rest| ensures rest[i] != c {
      if 1 <= i < 1 + |a| { assert rest[i] == a[i - 1]; }
    }
  }

  lemma SecondsJoin(tag: string, a: string)
    ensures tag + " " + a + "s" == tag + (" " + a + "s")
  {
  }

  /** Removing every 's' from " ns" leaves " n". */
  lemma LogUnitRemoved(n: int)
    ensures ReplaceAll(" " + IntToString(n) + "s", "s", "") == " " + IntToString(n)
  {
    var a := IntToString(n);
    IntTextFree(n, 's');
    forall i | 0 <= i < |" " + a| ensures (" " + a)[i] != 's' {
      if i >= 1 { assert (" " + a)[i] == a[i - 1]; }
    }
    ReplaceCharAppend(" " + a, "s", 's', "");
    ReplaceAbsent(" " + a, "s", "");
    assert ReplaceAll("s", "s", "") == "" by {
      ReplacePrefix("s", "", "");
    }
  }

  /** A log field "P1: ns" reads back as `str(n)`. */
  lemma LogFieldValue(tag: string, n: int)
    requires |tag| == 3 && tag[0] == 'P'
    ensures LogField(tag + " " + IntToString(n) + "s", tag) == IntToString(n)
  {
    IntToStringChars(n);
    LogTagRemoved(tag, n);
    LogUnitRemoved(n);
    StripPadded(IntToString(n));
  }

  /** The head of a status log line, up to its first bar. */
  function LogHead(status: string): string { "LOG: " + status + " " }

  /** A timer field of a status log line, " Pk: ns ", between two bars. */
  function LogTimeField(tag: string, n: int): string { " " + tag + " " + IntToString(n) + "s " }

  /** The tail of a status log line, after its last bar. */
  function LogTail(turn: string): string { " Turn: " + turn }

  /** The status log line the clock prints, "LOG: <status> | P1: <b>s | P2: <w>s | Turn: <t>". */
  function LogLine(status: string, turn: string, black: int, white: int): string
  {
    LogHead(status) + "|" + LogTimeField("P1:", black) + "|" + LogTimeField("P2:", white) + "|" + LogTail(turn)
  }

  /** The log branch of the normalisation, on its own. */
  lemma LogBranch(data: string, v1: string, v2: string)
    requires !StartsWith(data, "DATA:") && !StartsWith(data, "P1:")
    requires StartsWith(data, "LOG:") && Contains(data, "P1:") && Contains(data, "P2:")
    requires LastWith(SplitOn(data, '|'), "P1:") == Some(v1) && LastWith(SplitOn(data, '|'), "P2:") == Some(v2)
    ensures TimerLine(data) == Some("P1:" + LogField(v1, "P1:") + ",P2:" + LogField(v2, "P2:"))
  {
  }

  /** No character of the text is a bar. */
  predicate BarFree(s: string)
  {
    forall i :: 0 <= i < |s| ==> s[i] != '|'
  }

  /** A rendered time holds no bar. */
  lemma TimeTextBarFree(s: string)
    requires TimeText(s)
    ensures BarFree(s)
  {
  }

  lemma BarFreeConcat(x: string, y: string)
    requires BarFree(x) && BarFree(y)
    ensures BarFree(x + y)
  {
    forall i | 0 <= i < |x + y| ensures (x + y)[i] != '|' {
      if i >= |x| { assert (x + y)[i] == y[i - |x|]; }
    }
  }

  /** Four bar-free texts joined by bars split back into the four. */
  lemma SplitFour(x1: string, x2: string, x3: string, x4: string)
    requires BarFree(x1) && BarFree(x2) && BarFree(x3) && BarFree(x4)
    ensures SplitOn(x1 + "|" + x2 + "|" + x3 + "|" + x4, '|') == [x1, x2, x3, x4]
  {
    var y3 := x3 + ['|'] + x4;
    var y2 := x2 + ['|'] + y3;
    SplitNoSeparator(x4, '|');
    SplitAtFirst(x3, '|', x4);
    assert SplitOn(y3, '|') == [x3, x4];
    SplitAtFirst(x2, '|', y3);
    assert SplitOn(y2, '|') == [x2, x3, x4];
    SplitAtFirst(x1, '|', y2);
    JoinFour(x1, x2, x3, x4);
  }

  lemma JoinFour(x1: string, x2: string, x3: string, x4: string)
    ensures x1 + "|" + x2 + "|" + x3 + "|" + x4 == x1 + ['|'] + (x2 + ['|'] + (x3 + ['|'] + x4))
  {
  }

  /** The three kinds of part carry no bar of their own. */
  lemma LogPartsBarFree(status: string, turn: string, tag: string, n: int)
    requires BarFree(status) && BarFree(turn) && BarFree(tag)
    ensures BarFree(LogHead(status)) && BarFree(LogTimeField(tag, n)) && BarFree(LogTail(turn))
  {
    IntTextFree(n, '|');
    assert BarFree("LOG: ") && BarFree(" ") && BarFree("s ") && BarFree(" Turn: ");
    BarFreeConcat("LOG: ", status);
    BarFreeConcat("LOG: " + status, " ");
    BarFreeConcat(" ", tag);
    BarFreeConcat(" " + tag, " ");
    BarFreeConcat(" " + tag + " ", IntToString(n));
    BarFreeConcat(" " + tag + " " + IntToString(n), "s ");
    BarFreeConcat(" Turn: ", turn);
  }

  /** The log line splits at its bars into its four parts. */
  lemma LogSplit(status: string, turn: string, black: int, white: int)
    requires BarFree(status) && BarFree(turn)
    ensures SplitOn(LogLine(status, turn, black, white), '|')
         == [LogHead(status), LogTimeField("P1:", black), LogTimeField("P2:", white), LogTail(turn)]
  {
    assert BarFree("P1:") && BarFree("P2:");
    LogPartsBarFree(status, turn, "P1:", black);
    LogPartsBarFree(status, turn, "P2:", white);
    SplitFour(LogHead(status), LogTimeField("P1:", black), LogTimeField("P2:", white), LogTail(turn));
  }

  /** A timer field holds its tag. */
  lemma TimeFieldContains(tag: string, n: int)
    ensures Contains(LogTimeField(tag, n), tag)
  {
    ContainsMiddle(" ", tag, " " + IntToString(n) + "s ");
    assert " " + tag + (" " + IntToString(n) + "s ") == LogTimeField(tag, n);
  }

  /** The log line starts with its tag and holds both field tags. */
  lemma LogLineTags(status: string, turn: string, black: int, white: int)
    ensures var data := LogLine(status, turn, black, white);
      !StartsWith(data, "DATA:") && !StartsWith(data, "P1:")
      && StartsWith(data, "LOG:") && Contains(data, "P1:") && Contains(data, "P2:")
  {
    var data := LogLine(status, turn, black, white);
    var h, f1, f2, t := LogHead(status), LogTimeField("P1:", black), LogTimeField("P2:", white), LogTail(turn);
    TimeFieldContains("P1:", black);
    TimeFieldContains("P2:", white);
    ContainsWithin(h + "|", f1, "|" + f2 + "|" + t, "P1:");
    JoinAroundFields(h, f1, f2, t);
    ContainsWithin(h + "|" + f1 + "|", f2, "|" + t, "P2:");
    LogLineStart(status, turn, black, white);
  }

  /** A text beginning with the log head starts with "LOG:", so with neither other form's tag. */
  lemma HeadStart(status: string, rest: string)
    ensures StartsWith(LogHead(status) + rest, "LOG:")
    ensures !StartsWith(LogHead(status) + rest, "DATA:") && !StartsWith(LogHead(status) + rest, "P1:")
  {
    var d := LogHead(status) + rest;
    assert d[..4] == "LOG:";
    assert d[0] == 'L';
  }

  lemma LogLineStart(status: string, turn: string, black: int, white: int)
    ensures var data := LogLine(status, turn, black, white);
      !StartsWith(data, "DATA:") && !StartsWith(data, "P1:") && StartsWith(data, "LOG:")
  {
    var h, f1, f2, t := LogHead(status), LogTimeField("P1:", black), LogTimeField("P2:", white), LogTail(turn);
    JoinAfterHead(h, f1, f2, t);
    HeadStart(status, "|" + f1 + "|" + f2 + "|" + t);
  }

  lemma JoinAfterHead(h: string, f1: string, f2: string, t: string)
    ensures h + "|" + f1 + "|" + f2 + "|" + t == h + ("|" + f1 + "|" + f2 + "|" + t)
  {
  }

  lemma JoinAroundFields(h: string, f1: string, f2: string, t: string)
    ensures h + "|" + f1 + "|" + f2 + "|" + t == h + "|" + f1 + ("|" + f2 + "|" + t)
    ensures h + "|" + f1 + "|" + f2 + "|" + t == h + "|" + f1 + "|" + f2 + ("|" + t)
  {
  }

  /** A part whose stripped form starts with another character carries no field tag. */
  lemma StrippedStartsWith(part: string, c: char, tag: string)
    requires |part| > 1 && part[0] == ' ' && part[1] == c && !IsSpace(c) && |tag| > 0 && tag[0] != c
    ensures !StartsWith(Strip(part), tag)
  {
    assert StripLeft(part) == StripLeft(part[1..]);
    assert part[1..][0] == c;
    StripRightKeepsFirst(part[1..]);
  }

  /** The head "LOG: ..." carries no field tag. */
  lemma HeadUntagged(status: string, tag: string)
    requires |tag| > 0 && tag[0] == 'P'
    ensures !StartsWith(Strip(LogHead(status)), tag)
  {
    assert LogHead(status)[0] == 'L';
    StripRightKeepsFirst(LogHead(status));
  }

  /** A stripped timer field is "Pk: ns". */
  lemma TimeFieldStripped(tag: string, n: int)
    requires |tag| == 3 && tag[0] == 'P'
    ensures Strip(LogTimeField(tag, n)) == tag + " " + IntToString(n) + "s"
  {
    var core := tag + " " + IntToString(n) + "s";
    assert LogTimeField(tag, n) == " " + core + " ";
    assert core[0] == 'P' && core[|core| - 1] == 's';
    StripPadded(core);
  }

  /** "Pk: ns" starts with its own tag. */
  lemma FieldStartsWithTag(tag: string, n: int)
    requires |tag| == 3
    ensures StartsWith(tag + " " + IntToString(n) + "s", tag)
  {
    assert (tag + " " + IntToString(n) + "s")[..3] == tag;
  }

  /** The P2 field does not start with the P1 tag. */
  lemma WhiteFieldNotBlack(n: int)
    ensures !StartsWith("P2:" + " " + IntToString(n) + "s", "P1:")
  {
    var f := "P2:" + " " + IntToString(n) + "s";
    assert f[..3][1] == '2';
  }

  /** A last part without the prefix is skipped. */
  lemma LastWithMiss(ps: seq<string>, x: string, prefix: string)
    requires !StartsWith(Strip(x), prefix)
    ensures LastWith(ps + [x], prefix) == LastWith(ps, prefix)
  {
    assert (ps + [x])[..|ps|] == ps;
  }

  /** A last part with the prefix is the one found. */
  lemma LastWithHit(ps: seq<string>, x: string, prefix: string)
    requires StartsWith(Strip(x), prefix)
    ensures LastWith(ps + [x], prefix) == Some(Strip(x))
  {
  }

  /** The last of four parts with a prefix is the third when only the fourth lacks it. */
  lemma LastWithThird(h: string, f1: string, f2: string, t: string, prefix: string)
    requires StartsWith(Strip(f2), prefix) && !StartsWith(Strip(t), prefix)
    ensures LastWith([h, f1, f2, t], prefix) == Some(Strip(f2))
  {
    var p2 := [h, f1];
    var p3 := p2 + [f2];
    assert [h, f1, f2, t] == p3 + [t];
    LastWithMiss(p3, t, prefix);
    LastWithHit(p2, f2, prefix);
  }

  /** The last of four parts with a prefix is the second when the last two lack it. */
  lemma LastWithSecond(h: string, f1: string, f2: string, t: string, prefix: string)
    requires StartsWith(Strip(f1), prefix) && !StartsWith(Strip(f2), prefix) && !StartsWith(Strip(t), prefix)
    ensures LastWith([h, f1, f2, t], prefix) == Some(Strip(f1))
  {
    var p1 := [h];
    var p2 := p1 + [f1];
    var p3 := p2 + [f2];
    assert [h, f1, f2, t] == p3 + [t];
    LastWithMiss(p3, t, prefix);
    LastWithMiss(p2, f2, prefix);
    LastWithHit(p1, f1, prefix);
  }

  /** The P1 part of the split log line is its second. */
  lemma LogLastBlack(status: string, turn: string, black: int, white: int)
    requires BarFree(status) && BarFree(turn)
    ensures LastWith(SplitOn(LogLine(status, turn, black, white), '|'), "P1:") == Some("P1:" + " " + IntToString(black) + "s")
  {
    var h, f1, f2, t := LogHead(status), LogTimeField("P1:", black), LogTimeField("P2:", white), LogTail(turn);
    LogSplit(status, turn, black, white);
    StrippedStartsWith(t, 'T', "P1:");
    TimeFieldStripped("P1:", black);
    TimeFieldStripped("P2:", white);
    FieldStartsWithTag("P1:", black);
    WhiteFieldNotBlack(white);
    LastWithSecond(h, f1, f2, t, "P1:");
  }

  /** The P2 part of the split log line is its third. */
  lemma LogLastWhite(status: string, turn: string, black: int, white: int)
    requires BarFree(status) && BarFree(turn)
    ensures LastWith(SplitOn(LogLine(status, turn, black, white), '|'), "P2:") == Some("P2:" + " " + IntToString(white) + "s")
  {
    var h, f1, f2, t := LogHead(status), LogTimeField("P1:", black), LogTimeField("P2:", white), LogTail(turn);
    LogSplit(status, turn, black, white);
    StrippedStartsWith(t, 'T', "P2:");
    TimeFieldStripped("P2:", white);
    FieldStartsWithTag("P2:", white);
    LastWithThird(h, f1, f2, t, "P2:");
  }

  /**
   * A status log line normalises to the direct form of its two times,
   * which then read back as black's and white's times.
   */
  lemma LogLineRoundTrip(status: string, turn: string, black: int, white: int)
    requires BarFree(status) && BarFree(turn)
    ensures TimerLine(LogLine(status, turn, black, white)) == Some(FormatTimerLine(black, white))
    ensures TimerValues(FormatTimerLine(black, white)) == Some((black, white))
  {
    var data := LogLine(status, turn, black, white);
    var v1, v2 := "P1:" + " " + IntToString(black) + "s", "P2:" + " " + IntToString(white) + "s";
    LogLineTags(status, turn, black, white);
    LogLastBlack(status, turn, black, white);
    LogLastWhite(status, turn, black, white);
    LogFieldValue("P1:", black);
    LogFieldValue("P2:", white);
    LogBranch(data, v1, v2);
    TimerLineRoundTrip(black, white);
  }

  /** The loop of `parse_timer_data` over the parts of a log line: the last P1 and the last P2 field. */
  method LastTimeFields(parts: seq<string>) returns (p1: Option<string>, p2: Option<string>)
    ensures p1 == LastWith(parts, "P1:") && p2 == LastWith(parts, "P2:")
  {
    p1, p2 := None, None;
    var i := 0;
    while i < |parts|
      invariant 0 <= i <= |parts|
      invariant p1 == LastWith(parts[..i], "P1:") && p2 == LastWith(parts[..i], "P2:")
    {
      var part := Strip(parts[i]);
      assert parts[..i + 1][..i] == parts[..i];
      if StartsWith(part, "P1:") {
        NotBothTags(part);
        p1 := Some(part);
      } else if StartsWith(part, "P2:") {
        p2 := Some(part);
      }
      i := i + 1;
    }
    assert parts[..|parts|] == parts;
  }

  lemma NotBothTags(part: string)
    requires StartsWith(part, "P1:")
    ensures !StartsWith(part, "P2:")
  {
    assert part[..3][1] == '1';
  }

  /**
   * The clock manager.  `connected` stands for an open serial port;
   * `sent` is the commands written to it.
   */
  class TimerManager {
    var connected: bool
    var blackTimer: int
    var whiteTimer: int
    var sent: seq<string>

    /** A fresh manager: not connected, both timers at ten minutes. */
    constructor ()
      ensures !connected && blackTimer == DefaultSeconds && whiteTimer == DefaultSeconds && sent == []
    {
      connected := false;
      blackTimer := DefaultSeconds;
      whiteTimer := DefaultSeconds;
      sent := [];
    }

    /** `parse_timer_data`, with its loop over the fields of a log line. */
    method ParseTimerData(data: string) returns (r: Option<string>)
      ensures r == TimerLine(data)
    {
      if StartsWith(data, "DATA:") && Contains(data, "P1:") && Contains(data, "P2:") {
        var t := Strip(ReplaceAll(data, "DATA:", ""));
        if StartsWith(t, "P1:") && Contains(t, ",P2:") {
          return Some(t);
        }
      } else if StartsWith(data, "P1:") && Contains(data, ",P2:") {
        return Some(data);
      } else if StartsWith(data, "LOG:") && Contains(data, "P1:") && Contains(data, "P2:") {
        var p1, p2 := LastTimeFields(SplitOn(data, '|'));
        if p1.Some? && p2.Some? {
          return Some("P1:" + LogField(p1.value, "P1:") + ",P2:" + LogField(p2.value, "P2:"));
        }
      }
      return None;
    }

    /**
     * `read_timer_data`: nothing when not connected; otherwise the pending
     * line (if any), already decoded and stripped, normalised.  A line that
     * cannot be decoded counts as no line.
     */
    method ReadTimerData(pending: Option<string>) returns (r: Option<string>)
      ensures !connected ==> r == None
      ensures connected && pending.Some? ==> r == TimerLine(pending.value)
      ensures pending.None? ==> r == None
    {
      if !connected {
        return None;
      }
      if pending.None? {
        return None;
      }
      r := ParseTimerData(pending.value);
    }

    /** `send_command`: refused when not connected; otherwise written, unless the write fails. */
    method SendCommand(command: string, writeSucceeds: bool) returns (ok: bool)
      modifies this
      ensures ok == (connected && writeSucceeds)
      ensures sent == (if ok then old(sent) + [command] else old(sent))
      ensures connected == old(connected) && blackTimer == old(blackTimer) && whiteTimer == old(whiteTimer)
    {
      if !connected || !writeSucceeds {
        return false;
      }
      sent := sent + [command];
      return true;
    }

    /** `get_timer_display` of the current timers. */
    function Display(): (d: string)
      reads this
      ensures d == TimerDisplay(blackTimer, whiteTimer)
    {
      TimerDisplay(blackTimer, whiteTimer)
    }

    /**
     * `update_timers_from_data`: both timers take the values read, or
     * neither changes.
     */
    method UpdateTimersFromData(data: string) returns (ok: bool)
      modifies this
      ensures ok <==> TimerValues(data).Some?
      ensures ok ==> (blackTimer, whiteTimer) == TimerValues(data).value
      ensures !ok ==> blackTimer == old(blackTimer) && whiteTimer == old(whiteTimer)
      ensures connected == old(connected) && sent == old(sent)
    {
      var v := TimerValues(data);
      if v.None? {
        return false;
      }
      blackTimer, whiteTimer := v.value.0, v.value.1;
      return true;
    }

    /** One pass of the monitoring loop: read a line and, if it normalises, update the timers from it. */
    method MonitorCycle(pending: Option<string>) returns (updated: bool)
      modifies this
      ensures updated <==> connected && pending.Some? && TimerLine(pending.value).Some?
                           && TimerValues(TimerLine(pending.value).value).Some?
      ensures updated ==> (blackTimer, whiteTimer) == TimerValues(TimerLine(pending.value).value).value
      ensures !updated ==> blackTimer == old(blackTimer) && whiteTimer == old(whiteTimer)
      ensures connected == old(connected) && sent == old(sent)
    {
      var line := ReadTimerData(pending);
      updated := false;
      if line.Some? {
        updated := UpdateTimersFromData(line.value);
      }
    }

    /** `reset_timers`: both back to ten minutes. */
    method ResetTimers()
      modifies this
      ensures blackTimer == DefaultSeconds && whiteTimer == DefaultSeconds
      ensures connected == old(connected) && sent == old(sent)
    {
      blackTimer, whiteTimer := DefaultSeconds, DefaultSeconds;
    }

    /** `set_timers`: each time clamped below at zero. */
    method SetTimers(black: int, white: int)
      modifies this
      ensures blackTimer >= 0 && whiteTimer >= 0
      ensures blackTimer == (if black < 0 then 0 else black)
      ensures whiteTimer == (if white < 0 then 0 else white)
      ensures connected == old(connected) && sent == old(sent)
    {
      blackTimer := if black < 0 then 0 else black;
      whiteTimer := if white < 0 then 0 else white;
    }
  }
}
