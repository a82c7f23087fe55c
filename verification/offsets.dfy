/** Fixed UTC offsets of the form "±HH:MM" and the conversion of a local
    time to UTC (`ConvertToUtc` in TripProcessingService). Times are whole
    minutes on an unbounded integer clock. */
module Offsets {
  import opened Wrappers

  predicate IsDigit(c: char) {
    '0' <= c <= '9'
  }

  predicate AllDigits(s: string) {
    forall i :: 0 <= i < |s| ==> IsDigit(s[i])
  }

  function DigitValue(c: char): nat
    requires IsDigit(c)
  {
    c as int - '0' as int
  }

  function DigitChar(d: nat): (c: char)
    requires d < 10
    ensures IsDigit(c) && DigitValue(c) == d
  {
    ('0' as int + d) as char
  }

  /** Value of a run of decimal digits, most significant first. */
  function DigitsValue(s: string): nat
    requires AllDigits(s)
  {
    if |s| == 0 then 0 else 10 * DigitsValue(s[..|s| - 1]) + DigitValue(s[|s| - 1])
  }

  /** `int.Parse` on the strings it accepts here: an optional sign followed
      by at least one ASCII digit. Anything else makes the source throw,
      which is `None`. */
  function ParseInt(s: string): Option<int> {
    if |s| > 0 && (s[0] == '-' || s[0] == '+') then
      if |s| > 1 && AllDigits(s[1..]) then
        Some(if s[0] == '-' then -(DigitsValue(s[1..]) as int) else DigitsValue(s[1..]))
      else None
    else if |s| > 0 && AllDigits(s) then Some(DigitsValue(s))
    else None
  }

  /** Decimal rendering of a natural number (no leading zeros). */
  function NatText(n: nat): (s: string)
    ensures |s| > 0 && AllDigits(s)
  {
    if n < 10 then [DigitChar(n)] else NatText(n / 10) + [DigitChar(n % 10)]
  }

  /** `int.ToString()`: decimal, with a leading '-' when negative. */
  function IntText(n: int): string {
    if n < 0 then "-" + NatText(-n) else NatText(n)
  }

  lemma {:induction false} NatTextValue(n: nat)
    ensures DigitsValue(NatText(n)) == n
  {
    if n >= 10 {
      NatTextValue(n / 10);
      var s := NatText(n);
      assert s[..|s| - 1] == NatText(n / 10);
    }
  }

  /** Reading back the rendering of an integer gives the integer. */
  lemma IntTextRoundTrip(n: int)
    ensures ParseInt(IntText(n)) == Some(n)
  {
    if n < 0 {
      NatTextValue(-n);
      assert IntText(n)[1..] == NatText(-n);
    } else {
      NatTextValue(n);
    }
  }

  /** `TrimStart('+', '-')`: drops every leading sign character. */
  function TrimSigns(s: string): (r: string)
    ensures |r| <= |s| && r == s[|s| - |r|..]
    ensures |r| > 0 ==> r[0] != '+' && r[0] != '-'
    ensures forall i :: 0 <= i < |s| - |r| ==> s[i] == '+' || s[i] == '-'
  {
    if |s| > 0 && (s[0] == '+' || s[0] == '-') then TrimSigns(s[1..]) else s
  }

  /** `Split(sep)`: the pieces between separators, always at least one. */
  function Split(s: string, sep: char): (parts: seq<string>)
    ensures |parts| >= 1
    ensures forall i :: 0 <= i < |parts| ==> sep !in parts[i]
  {
    if |s| == 0 then [""]
    else
      var rest := Split(s[1..], sep);
      if s[0] == sep then [""] + rest else [[s[0]] + rest[0]] + rest[1..]
  }

  /** Inverse of `Split`: the pieces glued back with the separator. */
  function Join(parts: seq<string>, sep: char): string
    requires |parts| >= 1
  {
    if |parts| == 1 then parts[0] else parts[0] + [sep] + Join(parts[1..], sep)
  }

  lemma {:induction false} SplitJoin(s: string, sep: char)
    ensures Join(Split(s, sep), sep) == s
  {
    if |s| > 0 {
      SplitJoin(s[1..], sep);
      var rest := Split(s[1..], sep);
      if s[0] != sep && |rest| > 1 {
        assert ([[s[0]] + rest[0]] + rest[1..])[1..] == rest[1..];
      }
    }
  }

  lemma {:induction false} SplitNoSeparator(a: string, sep: char)
    requires sep !in a
    ensures Split(a, sep) == [a]
  {
    if |a| > 0 {
      SplitNoSeparator(a[1..], sep);
      assert [a[0]] + a[1..] == a;
    }
  }

  lemma {:induction false} SplitAtFirstSeparator(a: string, sep: char, b: string)
    requires sep !in a
    ensures Split(a + [sep] + b, sep) == [a] + Split(b, sep)
  {
    if |a| > 0 {
      assert (a + [sep] + b)[1..] == a[1..] + [sep] + b;
      SplitAtFirstSeparator(a[1..], sep, b);
      assert [a[0]] + a[1..] == a;
    } else {
      assert (a + [sep] + b)[1..] == b;
    }
  }

  /** Offset in minutes east of UTC denoted by an offset string, following
      the source's parse: the sign is '-' iff the first character is '-',
      the sign characters are trimmed, the rest is split on ':', the first
      piece is the hours and the second piece, if any, the minutes.
      `None` where the source throws (empty string, unparsable piece). */
  function ParseOffset(s: string): (r: Option<int>)
    ensures r.Some? ==> |s| > 0
  {
    if |s| == 0 then None
    else
      var sign := if s[0] == '-' then -1 else 1;
      var parts := Split(TrimSigns(s), ':');
      match ParseInt(parts[0])
      case None => None
      case Some(hours) =>
        match (if |parts| > 1 then ParseInt(parts[1]) else Some(0))
        case None => None
        case Some(minutes) => Some(sign * hours * 60 + sign * minutes)
  }

  /** UTC = local - offset. `None` exactly when the offset string does not
      parse; otherwise adding the offset back recovers the local time, and
      for a `±HH:MM` offset the result is local - sign * (HH * 60 + MM). */
  function ConvertToUtc(local: int, utcOffset: string): (r: Option<int>)
    ensures r.Some? <==> ParseOffset(utcOffset).Some?
    ensures r.Some? ==> r.value + ParseOffset(utcOffset).value == local
    ensures OffsetShape(utcOffset) ==> r == Some(local - ShapeMinutes(utcOffset))
  {
    ShapedOffsetParsesWhenShaped(utcOffset);
    match ParseOffset(utcOffset)
    case None => None
    case Some(offset) => Some(local - offset)
  }

  /** The shape the seeded offsets have: sign, two digits, colon, two digits. */
  predicate OffsetShape(s: string) {
    && |s| == 6
    && (s[0] == '+' || s[0] == '-')
    && IsDigit(s[1]) && IsDigit(s[2]) && s[3] == ':' && IsDigit(s[4]) && IsDigit(s[5])
  }

  /** Minutes denoted by a well-shaped offset: sign * (HH * 60 + MM). */
  function ShapeMinutes(s: string): int
    requires OffsetShape(s)
  {
    var hours := 10 * DigitValue(s[1]) + DigitValue(s[2]);
    var minutes := 10 * DigitValue(s[4]) + DigitValue(s[5]);
    (if s[0] == '-' then -1 else 1) * (hours * 60 + minutes)
  }

  lemma TwoDigits(s: string)
    requires |s| == 2 && IsDigit(s[0]) && IsDigit(s[1])
    ensures ParseInt(s) == Some(10 * DigitValue(s[0]) + DigitValue(s[1]))
  {
    assert s[..1][..0] == [];
    assert DigitsValue(s[..1]) == DigitValue(s[0]);
  }

  /** Every well-shaped offset parses, to sign * (HH * 60 + MM) minutes. */
  lemma ShapedOffsetParses(s: string)
    requires OffsetShape(s)
    ensures ParseOffset(s) == Some(ShapeMinutes(s))
  {
    var hh, mm := s[1..3], s[4..6];
    assert TrimSigns(s[1..]) == s[1..];
    assert TrimSigns(s) == s[1..];
    assert s[1..] == hh + [':'] + mm;
    SplitAtFirstSeparator(hh, ':', mm);
    SplitNoSeparator(mm, ':');
    var parts := Split(TrimSigns(s), ':');
    assert parts == [hh, mm];
    TwoDigits(hh);
    TwoDigits(mm);
  }

  lemma ShapedOffsetParsesWhenShaped(s: string)
    ensures OffsetShape(s) ==> ParseOffset(s) == Some(ShapeMinutes(s))
  {
    if OffsetShape(s) {
      ShapedOffsetParses(s);
    }
  }

  /** `ConvertToUtc` on a well-shaped offset is local - sign * (HH * 60 + MM). */
  lemma ConvertShaped(local: int, s: string)
    requires OffsetShape(s)
    ensures ConvertToUtc(local, s) == Some(local - ShapeMinutes(s))
  {
    ShapedOffsetParses(s);
  }

  /** The conversions the source's tests check: 08:00 local becomes 13:00,
      14:00 and 16:00 UTC at -05:00, -06:00 and -08:00. */
  lemma EasternExample()
    ensures ConvertToUtc(8 * 60, "-05:00") == Some(13 * 60)
  {
    var s := "-05:00";
    assert OffsetShape(s) && ShapeMinutes(s) == -300;
    ConvertShaped(8 * 60, s);
  }

  lemma CentralExample()
    ensures ConvertToUtc(8 * 60, "-06:00") == Some(14 * 60)
  {
    var s := "-06:00";
    assert OffsetShape(s) && ShapeMinutes(s) == -360;
    ConvertShaped(8 * 60, s);
  }

  lemma PacificExample()
    ensures ConvertToUtc(8 * 60, "-08:00") == Some(16 * 60)
  {
    var s := "-08:00";
    assert OffsetShape(s) && ShapeMinutes(s) == -480;
    ConvertShaped(8 * 60, s);
  }

  /** "+00:00" leaves every time unchanged. */
  lemma ZeroOffsetIsIdentity(local: int)
    ensures ConvertToUtc(local, "+00:00") == Some(local)
  {
    var s := "+00:00";
    assert OffsetShape(s) && ShapeMinutes(s) == 0;
    ConvertShaped(local, s);
  }
}
