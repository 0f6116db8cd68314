/**
 * The handful of Python `str` operations the modelled code relies on:
 * `strip`, `startswith`, `in`, `replace`, `split`, `int(...)`, `str(int)`
 * and the `02d` format.  Only the behaviour the callers can observe is
 * modelled; `int(...)` accepts ASCII digits only.
 */
module Text {
  import opened Wrappers

  /** The characters Python's `str.isspace` accepts, which `strip()` removes. */
  predicate IsSpace(c: char)
  {
    c == ' ' || ('\U{9}' <= c <= '\U{D}') || ('\U{1C}' <= c <= '\U{1F}')
    || c == '\U{85}' || c == '\U{A0}' || c == '\U{1680}' || ('\U{2000}' <= c <= '\U{200A}')
    || c == '\U{2028}' || c == '\U{2029}' || c == '\U{202F}' || c == '\U{205F}' || c == '\U{3000}'
  }

  predicate IsDigit(c: char) { '0' <= c <= '9' }

  predicate AllDigits(s: string) { forall k :: 0 <= k < |s| ==> IsDigit(s[k]) }

  function StripLeft(s: string): (t: string)
    ensures |t| <= |s| && t == s[|s| - |t|..]
    ensures |t| == 0 || !IsSpace(t[0])
  {
    if |s| > 0 && IsSpace(s[0]) then StripLeft(s[1..]) else s
  }

  function StripRight(s: string): (t: string)
    ensures |t| <= |s| && t == s[..|t|]
    ensures |t| == 0 || !IsSpace(t[|t| - 1])
  {
    if |s| > 0 && IsSpace(s[|s| - 1]) then StripRight(s[..|s| - 1]) else s
  }

  /** `s.strip()` */
  function Strip(s: string): string
  {
    StripRight(StripLeft(s))
  }

  /** `s.startswith(p)` */
  predicate StartsWith(s: string, p: string)
  {
    |p| <= |s| && s[..|p|] == p
  }

  /** `sub in s` */
  predicate Contains(s: string, sub: string)
    decreases |s|
  {
    StartsWith(s, sub) || (|s| > 0 && Contains(s[1..], sub))
  }

  /** `s.replace(pat, rep)`: every non-overlapping occurrence, scanning left to right. */
  function ReplaceAll(s: string, pat: string, rep: string): string
    requires pat != ""
    decreases |s|
  {
    if |s| == 0 then ""
    else if StartsWith(s, pat) then rep + ReplaceAll(s[|pat|..], pat, rep)
    else [s[0]] + ReplaceAll(s[1..], pat, rep)
  }

  /** `s.split(sep)` for a one-character separator. */
  function SplitOn(s: string, sep: char): (parts: seq<string>)
    ensures |parts| >= 1
    decreases |s|
  {
    if |s| == 0 then [""]
    else
      var rest := SplitOn(s[1..], sep);
      if s[0] == sep then [""] + rest
      else [[s[0]] + rest[0]] + rest[1..]
  }

  /** `sep.join(parts)` */
  function Join(parts: seq<string>, sep: char): string
  {
    if |parts| == 0 then ""
    else if |parts| == 1 then parts[0]
    else parts[0] + [sep] + Join(parts[1..], sep)
  }

  /** Splitting and joining on the same separator gives the text back, and no field holds the separator. */
  lemma {:induction false} SplitJoin(s: string, sep: char)
    ensures Join(SplitOn(s, sep), sep) == s
    ensures forall k, i :: 0 <= k < |SplitOn(s, sep)| && 0 <= i < |SplitOn(s, sep)[k]| ==> SplitOn(s, sep)[k][i] != sep
    decreases |s|
  {
    if |s| > 0 {
      SplitJoin(s[1..], sep);
      var rest := SplitOn(s[1..], sep);
      if s[0] == sep {
        assert SplitOn(s, sep) == [""] + rest;
        assert Join([""] + rest, sep) == "" + [sep] + Join(rest, sep);
      } else {
        var parts := SplitOn(s, sep);
        assert parts == [[s[0]] + rest[0]] + rest[1..];
        if |rest| == 1 {
          assert Join(parts, sep) == [s[0]] + rest[0];
        } else {
          assert Join(rest, sep) == rest[0] + [sep] + Join(rest[1..], sep);
          assert Join(parts, sep) == [s[0]] + rest[0] + [sep] + Join(parts[1..], sep);
          assert parts[1..] == rest[1..];
        }
        assert s == [s[0]] + s[1..];
      }
    }
  }

  /** A text without the separator splits into itself alone. */
  lemma {:induction false} SplitNoSeparator(s: string, sep: char)
    requires forall i :: 0 <= i < |s| ==> s[i] != sep
    ensures SplitOn(s, sep) == [s]
    decreases |s|
  {
    if |s| > 0 {
      SplitNoSeparator(s[1..], sep);
      assert s == [s[0]] + s[1..];
    }
  }

  /** Splitting `a + [sep] + b` where `a` has no separator. */
  lemma {:induction false} SplitAtFirst(a: string, sep: char, b: string)
    requires forall i :: 0 <= i < |a| ==> a[i] != sep
    ensures SplitOn(a + [sep] + b, sep) == [a] + SplitOn(b, sep)
    decreases |a|
  {
    if |a| == 0 {
      assert a + [sep] + b == [sep] + b;
      assert ([sep] + b)[1..] == b;
    } else {
      SplitAtFirst(a[1..], sep, b);
      assert (a + [sep] + b)[1..] == a[1..] + [sep] + b;
      assert [a[0]] + a[1..] == a;
    }
  }

  function DigitChar(d: int): (c: char)
    requires 0 <= d < 10
    ensures IsDigit(c)
  {
    ('0' as int + d) as char
  }

  function DigitValue(c: char): (d: nat)
    requires IsDigit(c)
    ensures d < 10 && DigitChar(d) == c
  {
    (c as int - '0' as int) as nat
  }

  /** The decimal digits of `n`, most significant first, without leading zeros. */
  function NatToString(n: nat): (s: string)
    ensures |s| >= 1 && AllDigits(s)
    decreases n
  {
    if n < 10 then [DigitChar(n)] else NatToString(n / 10) + [DigitChar(n % 10)]
  }

  /** `str(n)` */
  function IntToString(n: int): string
  {
    if n < 0 then "-" + NatToString(-n) else NatToString(n)
  }

  /** The value of a run of decimal digits (leading zeros allowed). */
  function DigitsValue(s: string): nat
    requires AllDigits(s)
  {
    if |s| == 0 then 0 else DigitsValue(s[..|s| - 1]) * 10 + DigitValue(s[|s| - 1])
  }

  /** `int(s)` on surrounding whitespace, an optional sign and at least one ASCII digit, with no underscores. */
  function ParseInt(s: string): Option<int>
  {
    ParseStripped(Strip(s))
  }

  /** `int(...)` once the surrounding whitespace is gone. */
  function ParseStripped(t: string): Option<int>
  {
    if |t| > 1 && (t[0] == '-' || t[0] == '+') && AllDigits(t[1..]) then
      Some(if t[0] == '-' then -(DigitsValue(t[1..]) as int) else DigitsValue(t[1..]))
    else if |t| > 0 && AllDigits(t) then Some(DigitsValue(t))
    else None
  }

  /** `f"{n:02d}"`: at least two characters, zero-padded after the sign. */
  function Pad2(n: int): string
  {
    if 0 <= n < 10 then "0" + IntToString(n) else IntToString(n)
  }

  lemma {:induction false} NatToStringValue(n: nat)
    ensures DigitsValue(NatToString(n)) == n
    decreases n
  {
    var s := NatToString(n);
    if n >= 10 {
      NatToStringValue(n / 10);
      assert s[..|s| - 1] == NatToString(n / 10);
    }
  }

  /** Leading zeros do not change the value of a digit run. */
  lemma {:induction false} LeadingZero(s: string)
    requires AllDigits(s)
    ensures AllDigits("0" + s) && DigitsValue("0" + s) == DigitsValue(s)
    decreases |s|
  {
    if |s| > 0 {
      LeadingZero(s[..|s| - 1]);
      assert ("0" + s)[..|"0" + s| - 1] == "0" + s[..|s| - 1];
    }
  }

  /** Text without whitespace at either end is its own strip. */
  lemma StripNoSpace(s: string)
    requires |s| > 0 && !IsSpace(s[0]) && !IsSpace(s[|s| - 1])
    ensures Strip(s) == s
  {
  }

  /** A run of digits parses as its value. */
  lemma ParseDigits(d: string)
    requires |d| >= 1 && AllDigits(d)
    ensures ParseInt(d) == Some(DigitsValue(d))
  {
    assert IsDigit(d[0]) && IsDigit(d[|d| - 1]);
    StripNoSpace(d);
  }

  /** A minus sign before a run of digits parses as the negated value. */
  lemma ParseNegDigits(d: string)
    requires |d| >= 1 && AllDigits(d)
    ensures ParseInt("-" + d) == Some(-(DigitsValue(d) as int))
  {
    NegDigitsStripped(d);
    NegDigitsParsed(d);
  }


  lemma NegDigitsStripped(d: string)
    requires |d| >= 1 && AllDigits(d)
    ensures Strip("-" + d) == "-" + d
  {
    var s := "-" + d;
    assert s[|s| - 1] == d[|d| - 1] && IsDigit(d[|d| - 1]);
    StripNoSpace(s);
  }

  lemma NegDigitsParsed(d: string)
    requires |d| >= 1 && AllDigits(d)
    ensures ParseStripped("-" + d) == Some(-(DigitsValue(d) as int))
  {
    assert ("-" + d)[1..] == d;
  }

  /** `int(str(n)) == n` for every integer. */
  lemma IntRoundTrip(n: int)
    ensures ParseInt(IntToString(n)) == Some(n)
  {
    IntRoundTripAt(n, IntToString(n));
  }

  lemma IntRoundTripAt(n: int, s: string)
    requires s == IntToString(n)
    ensures ParseInt(s) == Some(n)
  {
    if n < 0 {
      NegRoundTrip(n, s);
    } else {
      NatRoundTrip(n);
    }
  }

  lemma NatRoundTrip(n: nat)
    ensures ParseInt(NatToString(n)) == Some(n)
  {
    NatToStringValue(n);
    ParseDigits(NatToString(n));
  }

  lemma NegRoundTrip(n: int, s: string)
    requires n < 0 && s == IntToString(n)
    ensures ParseInt(s) == Some(n)
  {
    var m: nat := -n;
    var d := NatToString(m);
    assert s == "-" + d;
    NatToStringValue(m);
    ParseNegDigits(d);
  }

  /** The `02d` rendering parses back to the same integer. */
  lemma Pad2RoundTrip(n: int)
    ensures ParseInt(Pad2(n)) == Some(n)
    ensures |Pad2(n)| >= 2
    ensures forall i :: 0 <= i < |Pad2(n)| ==> Pad2(n)[i] != ':'
  {
    if 0 <= n < 10 {
      Pad2Digit(n, Pad2(n));
    } else {
      Pad2Wide(n, Pad2(n));
    }
  }

  /** A single digit gets a leading zero. */
  lemma Pad2Digit(n: int, s: string)
    requires 0 <= n < 10 && s == Pad2(n)
    ensures ParseInt(s) == Some(n) && |s| == 2 && forall i :: 0 <= i < |s| ==> IsDigit(s[i])
  {
    var d := NatToString(n);
    assert d == [DigitChar(n)];
    assert s == "0" + d;
    LeadingZero(d);
    NatToStringValue(n);
    ParseDigits("0" + d);
  }

  /** Any other integer is written as `str` writes it, in at least two characters. */
  lemma Pad2Wide(n: int, s: string)
    requires !(0 <= n < 10) && s == Pad2(n)
    ensures ParseInt(s) == Some(n) && |s| >= 2 && forall i :: 0 <= i < |s| ==> s[i] != ':'
  {
    assert s == IntToString(n);
    IntRoundTrip(n);
    IntToStringChars(n);
    if n < 0 {
      assert s == "-" + NatToString(-n);
    } else {
      assert NatToString(n) == NatToString(n / 10) + [DigitChar(n % 10)];
    }
  }

  /** `s.replace(c, "")` leaves no `c` behind. */
  lemma {:induction false} RemoveCharGone(s: string, c: char)
    ensures forall i :: 0 <= i < |ReplaceAll(s, [c], "")| ==> ReplaceAll(s, [c], "")[i] != c
    decreases |s|
  {
    if |s| > 0 {
      RemoveCharGone(s[1..], c);
      if StartsWith(s, [c]) {
        assert s[|[c]|..] == s[1..];
      }
    }
  }

  /** An occurrence at a known position is found by `in`. */
  lemma {:induction false} ContainsAt(s: string, sub: string, k: nat)
    requires k + |sub| <= |s| && s[k..k + |sub|] == sub
    ensures Contains(s, sub)
    decreases k
  {
    if k > 0 {
      assert s[1..][k - 1..k - 1 + |sub|] == s[k..k + |sub|];
      ContainsAt(s[1..], sub, k - 1);
    }
  }

  /** Replacing a pattern whose first character never occurs changes nothing. */
  lemma {:induction false} ReplaceAbsent(s: string, pat: string, rep: string)
    requires pat != "" && forall i :: 0 <= i < |s| ==> s[i] != pat[0]
    ensures ReplaceAll(s, pat, rep) == s
    decreases |s|
  {
    if |s| > 0 {
      assert !StartsWith(s, pat) by { if |pat| <= |s| { assert s[..|pat|][0] == s[0]; } }
      ReplaceAbsent(s[1..], pat, rep);
      assert [s[0]] + s[1..] == s;
    }
  }

  /** An occurrence at the very start is replaced first. */
  lemma ReplacePrefix(pat: string, s: string, rep: string)
    requires pat != ""
    ensures ReplaceAll(pat + s, pat, rep) == rep + ReplaceAll(s, pat, rep)
  {
    assert (pat + s)[..|pat|] == pat;
    assert (pat + s)[|pat|..] == s;
  }

  /** A text that contains `sub` still does with anything put around it. */
  lemma {:induction false} ContainsWithin(p: string, x: string, q: string, sub: string)
    requires Contains(x, sub)
    ensures Contains(p + x + q, sub)
    decreases |p| + |x|
  {
    if |p| > 0 {
      ContainsWithin(p[1..], x, q, sub);
      assert (p + x + q)[1..] == p[1..] + x + q;
    } else if StartsWith(x, sub) {
      assert (p + x + q)[..|sub|] == x[..|sub|];
    } else {
      ContainsWithin(p, x[1..], q, sub);
      assert (p + x + q)[1..] == p + x[1..] + q;
    }
  }

  /** Removing a one-character pattern works piece by piece: no occurrence spans a seam. */
  lemma {:induction false} ReplaceCharAppend(x: string, y: string, c: char, rep: string)
    ensures ReplaceAll(x + y, [c], rep) == ReplaceAll(x, [c], rep) + ReplaceAll(y, [c], rep)
    decreases |x|
  {
    if |x| > 0 {
      ReplaceCharAppend(x[1..], y, c, rep);
      assert (x + y)[1..] == x[1..] + y;
      assert (x + y)[0] == x[0];
      assert StartsWith(x + y, [c]) == StartsWith(x, [c]);
    } else {
      assert x + y == y;
    }
  }

  /** Strip removes exactly one blank on each side of text that does not start or end with whitespace. */
  lemma StripPadded(core: string)
    requires |core| > 0 && !IsSpace(core[0]) && !IsSpace(core[|core| - 1])
    ensures Strip(" " + core + " ") == core
    ensures Strip(" " + core) == core
  {
    assert (" " + core + " ")[1..] == core + " ";
    assert (" " + core)[1..] == core;
    assert StripLeft(core + " ") == core + " ";
    assert (core + " ")[..|core + " "| - 1] == core;
    StripNoSpace(core);
  }

  /** `str(n)` is made of digits and a leading minus sign only. */
  lemma IntToStringChars(n: int)
    ensures |IntToString(n)| >= 1
    ensures forall i :: 0 <= i < |IntToString(n)| ==> IsDigit(IntToString(n)[i]) || IntToString(n)[i] == '-'
    ensures !IsSpace(IntToString(n)[0]) && !IsSpace(IntToString(n)[|IntToString(n)| - 1])
  {
    if n < 0 {
      assert IntToString(n)[1..] == NatToString(-n);
    }
  }

  /** Only whitespace is removed on the right: a text whose first character is not whitespace keeps it. */
  lemma {:induction false} StripRightKeepsFirst(s: string)
    requires |s| > 0 && !IsSpace(s[0])
    ensures |StripRight(s)| > 0 && StripRight(s)[0] == s[0]
    decreases |s|
  {
    if IsSpace(s[|s| - 1]) {
      StripRightKeepsFirst(s[..|s| - 1]);
    }
  }
}
