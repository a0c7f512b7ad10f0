/**
 * The .NET string and integer operations the loader relies on:
 * String.Trim with the Char.IsWhiteSpace set of .NET Framework 4.6.2 and
 * later and .NET Core,
 * String.Split(char), and Int32.Parse(string) and Int32.ToString() under
 * the invariant culture (ASCII digits, '-' as the negative sign).
 */
module CsText {
  import opened Wrappers

  const Int32Min: int := -0x8000_0000
  const Int32Max: int := 0x7FFF_FFFF

  predicate InInt32(n: int) {
    Int32Min <= n <= Int32Max
  }

  /** Char.IsWhiteSpace: the Unicode space, line and paragraph separators,
      U+0009..U+000D and U+0085. */
  predicate IsWhiteSpace(c: char) {
    || c == ' ' || '\t' <= c <= '\r' || c == '\U{85}' || c == '\U{A0}'
    || c == '\U{1680}' || '\U{2000}' <= c <= '\U{200A}' || c == '\U{2028}'
    || c == '\U{2029}' || c == '\U{202F}' || c == '\U{205F}' || c == '\U{3000}'
  }

  /** The white space Int32.Parse skips before and after the number
      (NumberStyles.AllowLeadingWhite / AllowTrailingWhite). */
  predicate IsNumberWhite(c: char) {
    c == ' ' || '\t' <= c <= '\r'
  }

  /** Drops the white characters at the front of `s` (TrimStartMeaning). */
  function TrimStart(s: string, white: char -> bool): (r: string)
    ensures |r| <= |s|
    decreases |s|
  {
    if |s| > 0 && white(s[0]) then TrimStart(s[1..], white) else s
  }

  /** Drops the white characters at the back of `s` (TrimEndMeaning). */
  function TrimEnd(s: string, white: char -> bool): (r: string)
    ensures |r| <= |s|
    decreases |s|
  {
    if |s| > 0 && white(s[|s| - 1]) then TrimEnd(s[..|s| - 1], white) else s
  }

  /** String.Trim(): `s` without the white space at either end. */
  function Trim(s: string): string {
    TrimEnd(TrimStart(s, IsWhiteSpace), IsWhiteSpace)
  }

  /** TrimStart drops exactly the white characters in front of the first
      character that is not white. */
  lemma {:induction false} TrimStartMeaning(s: string, white: char -> bool)
    ensures var r := TrimStart(s, white);
            && r == s[|s| - |r|..]
            && (forall i :: 0 <= i < |s| - |r| ==> white(s[i]))
            && (r == [] || !white(r[0]))
    decreases |s|
  {
    if |s| > 0 && white(s[0]) {
      TrimStartMeaning(s[1..], white);
      var r := TrimStart(s, white);
      assert forall i :: 1 <= i < |s| - |r| ==> s[i] == s[1..][i - 1];
    }
  }

  /** TrimEnd drops exactly the white characters after the last character
      that is not white. */
  lemma {:induction false} TrimEndMeaning(s: string, white: char -> bool)
    ensures var r := TrimEnd(s, white);
            && r == s[..|r|]
            && (forall i :: |r| <= i < |s| ==> white(s[i]))
            && (r == [] || !white(r[|r| - 1]))
    decreases |s|
  {
    if |s| > 0 && white(s[|s| - 1]) {
      TrimEndMeaning(s[..|s| - 1], white);
      var r := TrimEnd(s, white);
      assert forall i :: |r| <= i < |s| - 1 ==> s[i] == s[..|s| - 1][i];
    }
  }

  /** Trimming both ends keeps the slice of `s` that starts after the `lead`
      characters TrimStart dropped, with only white characters on either
      side of it and none at its own ends. */
  lemma TrimBothMeaning(s: string, white: char -> bool)
    ensures var lead := |s| - |TrimStart(s, white)|;
            var r := TrimEnd(TrimStart(s, white), white);
            && lead + |r| <= |s| && r == s[lead..lead + |r|]
            && (forall i :: 0 <= i < lead ==> white(s[i]))
            && (forall i :: lead + |r| <= i < |s| ==> white(s[i]))
            && (r != [] ==> !white(r[0]) && !white(r[|r| - 1]))
  {
    var t := TrimStart(s, white);
    TrimStartMeaning(s, white);
    var r := TrimEnd(t, white);
    TrimEndMeaning(t, white);
    var lead := |s| - |t|;
    assert r == s[lead..lead + |r|] by {
      assert t[..|r|] == s[lead..lead + |r|];
    }
    forall i | lead + |r| <= i < |s|
      ensures white(s[i])
    {
      assert s[i] == t[i - lead];
    }
    if r != [] {
      assert r[0] == t[0];
    }
  }

  /** String.Trim keeps the middle of `s`: it removes the white space in
      front of the first character that is not white space and after the
      last; the result neither starts nor ends with white space. */
  lemma TrimMeaning(s: string)
    ensures var lead := |s| - |TrimStart(s, IsWhiteSpace)|;
            var r := Trim(s);
            && lead + |r| <= |s| && r == s[lead..lead + |r|]
            && (forall i :: 0 <= i < lead ==> IsWhiteSpace(s[i]))
            && (forall i :: lead + |r| <= i < |s| ==> IsWhiteSpace(s[i]))
            && (r != [] ==> !IsWhiteSpace(r[0]) && !IsWhiteSpace(r[|r| - 1]))
  {
    TrimBothMeaning(s, IsWhiteSpace);
  }

  /** Number of occurrences of `c` in `s`. */
  function Occurrences(s: string, c: char): nat
    decreases |s|
  {
    if |s| == 0 then 0 else (if s[0] == c then 1 else 0) + Occurrences(s[1..], c)
  }

  /** String.Split(sep): cuts at every occurrence of `sep`; two adjacent
      separators, or one at either end, give an empty part. */
  function Split(s: string, sep: char): (parts: seq<string>)
    ensures |parts| == Occurrences(s, sep) + 1
    ensures forall i :: 0 <= i < |parts| ==> sep !in parts[i]
    decreases |s|
  {
    if |s| == 0 then [""]
    else
      var rest := Split(s[1..], sep);
      if s[0] == sep then [""] + rest
      else [[s[0]] + rest[0]] + rest[1..]
  }

  /** String.Join(sep, parts): the inverse of Split. */
  function Join(parts: seq<string>, sep: char): string
    requires |parts| >= 1
    decreases |parts|
  {
    if |parts| == 1 then parts[0] else parts[0] + [sep] + Join(parts[1..], sep)
  }

  /** Splitting loses nothing: joining the parts gives the string back. */
  lemma {:induction false} JoinSplit(s: string, sep: char)
    ensures Join(Split(s, sep), sep) == s
    decreases |s|
  {
    if |s| > 0 {
      var rest := Split(s[1..], sep);
      JoinSplit(s[1..], sep);
      if s[0] == sep {
        assert Split(s, sep) == [""] + rest;
        assert ([""] + rest)[1..] == rest;
      } else if |rest| == 1 {
        assert Split(s, sep) == [[s[0]] + rest[0]];
      } else {
        var parts := Split(s, sep);
        assert parts == [[s[0]] + rest[0]] + rest[1..];
        assert parts[1..] == rest[1..];
        assert Join(rest, sep) == rest[0] + [sep] + Join(rest[1..], sep);
      }
    }
  }

  /** Splitting `a + b` where `a` holds no separator glues `a` to the first part of `b`. */
  lemma {:induction false} SplitPrefix(a: string, b: string, sep: char)
    requires sep !in a
    ensures Split(a + b, sep) == [a + Split(b, sep)[0]] + Split(b, sep)[1..]
    decreases |a|
  {
    if |a| > 0 {
      SplitPrefix(a[1..], b, sep);
      assert (a + b)[1..] == a[1..] + b;
      assert (a + b)[0] == a[0];
      assert [a[0]] + (a[1..] + Split(b, sep)[0]) == a + Split(b, sep)[0];
    } else {
      assert a + b == b;
      assert a + Split(b, sep)[0] == Split(b, sep)[0];
      assert Split(b, sep) == [Split(b, sep)[0]] + Split(b, sep)[1..];
    }
  }

  /** Joining parts that hold no separator and splitting again gives the parts back. */
  lemma {:induction false} SplitJoin(parts: seq<string>, sep: char)
    requires |parts| >= 1
    requires forall i :: 0 <= i < |parts| ==> sep !in parts[i]
    ensures Split(Join(parts, sep), sep) == parts
    decreases |parts|
  {
    if |parts| == 1 {
      SplitPrefix(parts[0], "", sep);
      assert parts[0] + "" == parts[0];
      assert Split("", sep) == [""];
    } else {
      var tail := Join(parts[1..], sep);
      SplitJoin(parts[1..], sep);
      assert Join(parts, sep) == parts[0] + ([sep] + tail);
      SplitPrefix(parts[0], [sep] + tail, sep);
      assert Split([sep] + tail, sep) == [""] + Split(tail, sep) by {
        assert ([sep] + tail)[1..] == tail;
      }
      assert ([""] + Split(tail, sep))[0] == "";
      assert ([""] + Split(tail, sep))[1..] == Split(tail, sep);
      assert parts[0] + "" == parts[0];
      assert parts == [parts[0]] + parts[1..];
    }
  }

  predicate IsDigit(c: char) {
    '0' <= c <= '9'
  }

  predicate AllDigits(s: string) {
    forall i :: 0 <= i < |s| ==> IsDigit(s[i])
  }

  function DigitValue(c: char): nat
    requires IsDigit(c)
  {
    c as int - '0' as int
  }

  function DigitChar(d: nat): (c: char)
    requires d < 10
    ensures IsDigit(c) && DigitValue(c) == d
  {
    ('0' as int + d) as char
  }

  /** The value of a string of decimal digits, most significant first. */
  function DigitsValue(ds: string): nat
    requires AllDigits(ds)
    decreases |ds|
  {
    if |ds| == 0 then 0 else DigitsValue(ds[..|ds| - 1]) * 10 + DigitValue(ds[|ds| - 1])
  }

  /** Int32.Parse(s) with NumberStyles.Integer: optional white space, an
      optional sign, one or more decimal digits, optional white space; a
      value outside the 32-bit range is an OverflowException. None stands
      for either exception. */
  function ParseInt32(s: string): (r: Option<int>)
    ensures r.Some? ==> InInt32(r.value)
  {
    var t := TrimEnd(TrimStart(s, IsNumberWhite), IsNumberWhite);
    var signed := |t| > 0 && (t[0] == '-' || t[0] == '+');
    var digits := if signed then t[1..] else t;
    if |digits| == 0 || !AllDigits(digits) then None
    else
      var n: int := if signed && t[0] == '-' then 0 - DigitsValue(digits) else DigitsValue(digits);
      if InInt32(n) then Some(n) else None
  }

  /** The decimal digits of `n`, without leading zeros. */
  function NatToString(n: nat): string
    decreases n
  {
    if n < 10 then [DigitChar(n)] else NatToString(n / 10) + [DigitChar(n % 10)]
  }

  /** Int32.ToString(): a minus sign for negative values, then the digits. */
  function IntToString(n: int): string {
    if n < 0 then "-" + NatToString(-n) else NatToString(n)
  }

  lemma {:induction false} NatToStringDigits(n: nat)
    ensures var ds := NatToString(n); |ds| >= 1 && AllDigits(ds) && DigitsValue(ds) == n
    decreases n
  {
    if n >= 10 {
      NatToStringDigits(n / 10);
      var ds := NatToString(n);
      assert ds[..|ds| - 1] == NatToString(n / 10);
    }
  }

  lemma TrimDigitsAlone(t: string)
    requires |t| >= 1 && !IsNumberWhite(t[0]) && !IsNumberWhite(t[|t| - 1])
    ensures TrimEnd(TrimStart(t, IsNumberWhite), IsNumberWhite) == t
  {
    assert TrimStart(t, IsNumberWhite) == t;
  }

  /** Int32.Parse reads back what Int32.ToString wrote. */
  lemma ParseIntToString(n: int)
    requires InInt32(n)
    ensures ParseInt32(IntToString(n)) == Some(n)
  {
    var m := if n < 0 then -n else n;
    NatToStringDigits(m);
    var ds := NatToString(m);
    var s := IntToString(n);
    assert s[|s| - 1] == ds[|ds| - 1];
    TrimDigitsAlone(s);
    if n < 0 {
      assert s[1..] == ds;
    }
  }

  /** Int32.ToString never writes a separator used by the OBJ format. */
  lemma IntToStringHasNoSlash(n: int)
    ensures '/' !in IntToString(n) && ' ' !in IntToString(n)
  {
    var m := if n < 0 then -n else n;
    NatToStringDigits(m);
  }

  /** Distinct 32-bit values have distinct decimal forms. */
  lemma IntToStringInjective(a: int, b: int)
    requires InInt32(a) && InInt32(b)
    requires IntToString(a) == IntToString(b)
    ensures a == b
  {
    ParseIntToString(a);
    ParseIntToString(b);
  }
}
