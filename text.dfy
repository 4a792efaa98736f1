/**
 * The few Python string operations the core relies on: str.strip(),
 * str.startswith / str.endswith, str.split(sep) with a one-character separator,
 * and int() applied to a string.
 */
module Text {
  import opened Common

  /** The whitespace str.strip() removes (the ASCII and Latin-1 part of it). */
  predicate IsSpace(c: char)
  {
    c == ' ' || c == '\t' || c == '\n' || c == '\r' || c == '\U{0B}' || c == '\U{0C}'
    || c == '\U{1C}' || c == '\U{1D}' || c == '\U{1E}' || c == '\U{1F}'
    || c == '\U{85}' || c == '\U{A0}'
  }

  predicate IsDigit(c: char)
  {
    '0' <= c <= '9'
  }

  predicate StartsWith(s: string, prefix: string)
  {
    |prefix| <= |s| && s[..|prefix|] == prefix
  }

  predicate EndsWith(s: string, suffix: string)
  {
    |suffix| <= |s| && s[|s| - |suffix|..] == suffix
  }

  // ---------------------------------------------------------------------
  // str.strip()
  // ---------------------------------------------------------------------

  /** The string without its leading whitespace. */
  function TrimStart(s: string): (r: string)
    ensures |r| <= |s|
  {
    if s == [] || !IsSpace(s[0]) then s else TrimStart(s[1..])
  }

  /** The string without its trailing whitespace. */
  function TrimEnd(s: string): (r: string)
    ensures |r| <= |s|
  {
    if s == [] || !IsSpace(s[|s| - 1]) then s else TrimEnd(s[..|s| - 1])
  }

  /** TrimStart cuts off a whitespace prefix and leaves a non-whitespace start. */
  lemma {:induction false} TrimStartCuts(s: string)
    ensures TrimStart(s) == s[|s| - |TrimStart(s)|..]
    ensures forall k :: 0 <= k < |s| - |TrimStart(s)| ==> IsSpace(s[k])
    ensures TrimStart(s) == [] || !IsSpace(TrimStart(s)[0])
  {
    if s != [] && IsSpace(s[0]) {
      TrimStartCuts(s[1..]);
    }
  }

  /** TrimEnd cuts off a whitespace suffix and leaves a non-whitespace end. */
  lemma {:induction false} TrimEndCuts(s: string)
    ensures TrimEnd(s) == s[..|TrimEnd(s)|]
    ensures forall k :: |TrimEnd(s)| <= k < |s| ==> IsSpace(s[k])
    ensures TrimEnd(s) == [] || !IsSpace(TrimEnd(s)[|TrimEnd(s)| - 1])
  {
    if s != [] && IsSpace(s[|s| - 1]) {
      TrimEndCuts(s[..|s| - 1]);
    }
  }

  /** str.strip(). */
  function Strip(s: string): (r: string)
    ensures |r| <= |s|
  {
    TrimEnd(TrimStart(s))
  }

  /** strip() returns a middle slice of the string, with no whitespace at either
      end, and cuts off only whitespace. */
  lemma StripCuts(s: string)
    ensures var r := Strip(s); var i := |s| - |TrimStart(s)|;
      && (r == [] || (!IsSpace(r[0]) && !IsSpace(r[|r| - 1])))
      && i + |r| <= |s| && r == s[i..i + |r|]
      && (forall k :: 0 <= k < i ==> IsSpace(s[k]))
      && (forall k :: i + |r| <= k < |s| ==> IsSpace(s[k]))
  {
    TrimStartCuts(s);
    StripEnds(s);
    StripSlice(s);
    forall k | |s| - |TrimStart(s)| + |Strip(s)| <= k < |s| ensures IsSpace(s[k]) {
      StripTail(s, k);
    }
  }

  lemma StripEnds(s: string)
    ensures var r := Strip(s); r == [] || (!IsSpace(r[0]) && !IsSpace(r[|r| - 1]))
  {
    var t := TrimStart(s);
    var r := TrimEnd(t);
    TrimStartCuts(s);
    TrimEndCuts(t);
    if r != [] {
      assert r[0] == t[0];
    }
  }

  lemma StripSlice(s: string)
    ensures var i := |s| - |TrimStart(s)|; var r := Strip(s);
      i + |r| <= |s| && r == s[i..i + |r|]
  {
    var t := TrimStart(s);
    var r := TrimEnd(t);
    var i := |s| - |t|;
    TrimStartCuts(s);
    TrimEndCuts(t);
    assert t == s[i..] && r == t[..|r|];
  }

  lemma StripTail(s: string, k: int)
    requires |s| - |TrimStart(s)| + |Strip(s)| <= k < |s|
    ensures IsSpace(s[k])
  {
    var t := TrimStart(s);
    var i := |s| - |t|;
    TrimStartCuts(s);
    TrimEndCuts(t);
    var j := k - i;
    assert |TrimEnd(t)| <= j < |t| && IsSpace(t[j]);
    assert t[j] == s[i..][j];
  }

  /** Whitespace-free ends are kept exactly: strip changes nothing. */
  lemma StripKeeps(s: string)
    requires s == [] || (!IsSpace(s[0]) && !IsSpace(s[|s| - 1]))
    ensures Strip(s) == s
  {
    TrimStartCuts(s);
    TrimEndCuts(s);
  }

  /** Stripping twice is stripping once. */
  lemma StripIdempotent(s: string)
    ensures Strip(Strip(s)) == Strip(s)
  {
    StripCuts(s);
    StripKeeps(Strip(s));
  }

  // ---------------------------------------------------------------------
  // str.split(sep)
  // ---------------------------------------------------------------------

  /** The parts joined back with the separator between consecutive parts. */
  function Join(parts: seq<string>, sep: char): string
  {
    if parts == [] then []
    else if |parts| == 1 then parts[0]
    else parts[0] + [sep] + Join(parts[1..], sep)
  }

  /** str.split(sep): one part more than there are separators; no part holds one. */
  function Split(s: string, sep: char): (parts: seq<string>)
    ensures |parts| >= 1
    ensures forall k :: 0 <= k < |parts| ==> sep !in parts[k]
    ensures Join(parts, sep) == s
  {
    if s == [] then [[]]
    else
      var rest := Split(s[1..], sep);
      if s[0] == sep then [[]] + rest
      else
        assert Join(rest, sep) == s[1..];
        [[s[0]] + rest[0]] + rest[1..]
  }

  /** Splitting a join of separator-free parts gives the parts back. */
  lemma {:induction false} SplitJoin(parts: seq<string>, sep: char)
    requires |parts| >= 1
    requires forall k :: 0 <= k < |parts| ==> sep !in parts[k]
    ensures Split(Join(parts, sep), sep) == parts
    decreases |parts|, |parts[0]|
  {
    var p := parts[0];
    if |parts| == 1 {
      SplitNoSeparator(p, sep);
    } else if p == [] {
      var rest := parts[1..];
      SplitJoin(rest, sep);
      assert Join(parts, sep) == [sep] + Join(rest, sep);
    } else {
      var shorter := [p[1..]] + parts[1..];
      assert sep !in p[1..];
      SplitJoin(shorter, sep);
      assert shorter[1..] == parts[1..];
      var s := Join(parts, sep);
      assert s == [p[0]] + Join(shorter, sep);
      assert s[0] == p[0] && s[1..] == Join(shorter, sep);
      assert p[0] != sep by { assert p[0] in p; }
      assert [p[0]] + p[1..] == p;
      assert [p] + parts[1..] == parts;
    }
  }

  lemma {:induction false} SplitNoSeparator(s: string, sep: char)
    requires sep !in s
    ensures Split(s, sep) == [s]
  {
    if s != [] {
      SplitNoSeparator(s[1..], sep);
    }
  }

  // ---------------------------------------------------------------------
  // int(string)
  // ---------------------------------------------------------------------

  /** Decimal digits with single underscores between them, as int() accepts:
      a digit, then any number of digits each optionally preceded by one underscore. */
  predicate DigitGroups(s: string)
  {
    && s != [] && IsDigit(s[0])
    && (|s| == 1 || if s[1] == '_' then DigitGroups(s[2..]) else DigitGroups(s[1..]))
  }

  /** A non-empty run of plain digits is a valid digit group. */
  lemma {:induction false} AllDigitsAreGroups(s: string)
    requires s != [] && forall k :: 0 <= k < |s| ==> IsDigit(s[k])
    ensures DigitGroups(s)
  {
    if |s| > 1 {
      assert !(s[1] == '_') by { assert IsDigit(s[1]); }
      assert forall k :: 0 <= k < |s[1..]| ==> s[1..][k] == s[k + 1];
      AllDigitsAreGroups(s[1..]);
    }
  }

  /** The value of the digits of a string, underscores skipped. */
  function DigitsValue(s: string): nat
  {
    if s == [] then 0
    else if IsDigit(s[|s| - 1]) then DigitsValue(s[..|s| - 1]) * 10 + ((s[|s| - 1] as int) - ('0' as int))
    else DigitsValue(s[..|s| - 1])
  }

  /** int(s) for a string: surrounding whitespace, an optional sign, then digit groups;
      anything else raises ValueError, here None. */
  function ParseInt(s: string): Option<int>
  {
    var t := Strip(s);
    if t != [] && (t[0] == '-' || t[0] == '+') then
      var v: int := DigitsValue(t[1..]);
      if DigitGroups(t[1..]) then Some(if t[0] == '-' then -v else v) else None
    else if DigitGroups(t) then Some(DigitsValue(t))
    else None
  }

  /** The decimal digits of a natural number, most significant first. */
  function Digits(n: nat): (r: string)
    ensures r != [] && forall k :: 0 <= k < |r| ==> IsDigit(r[k])
  {
    if n < 10 then [('0' as int + n) as char] else Digits(n / 10) + [('0' as int + n % 10) as char]
  }

  /** str(n): the decimal form of an integer. */
  function Decimal(n: int): string
  {
    if n < 0 then "-" + Digits(-n) else Digits(n)
  }

  lemma {:induction false} DigitsValueOfDigits(n: nat)
    ensures DigitsValue(Digits(n)) == n
  {
    if n >= 10 {
      DigitsValueOfDigits(n / 10);
      var d := Digits(n);
      assert d[..|d| - 1] == Digits(n / 10);
    }
  }

  /** int(str(n)) == n: every integer's decimal form parses back to it. */
  lemma ParseDecimal(n: int)
    ensures ParseInt(Decimal(n)) == Some(n)
  {
    if n < 0 {
      ParseNegative(n);
    } else {
      ParseNonNegative(n);
    }
  }

  lemma ParseNonNegative(n: nat)
    ensures ParseInt(Digits(n)) == Some(n)
  {
    var s := Digits(n);
    DigitsValueOfDigits(n);
    AllDigitsAreGroups(s);
    assert !IsSpace(s[0]) && !IsSpace(s[|s| - 1]) by { assert IsDigit(s[0]) && IsDigit(s[|s| - 1]); }
    StripKeeps(s);
  }

  lemma ParseNegative(n: int)
    requires n < 0
    ensures ParseInt("-" + Digits(-n)) == Some(n)
  {
    var d := Digits(-n);
    DigitsValueOfDigits(-n);
    AllDigitsAreGroups(d);
    assert IsDigit(d[|d| - 1]);
    ParseMinus(d);
  }

  /** A minus sign before digit groups negates their value. */
  lemma ParseMinus(d: string)
    requires DigitGroups(d) && !IsSpace(d[|d| - 1])
    ensures ParseInt("-" + d) == Some(-(DigitsValue(d) as int))
  {
    var s := ['-'] + d;
    assert s[0] == '-' && s[|s| - 1] == d[|d| - 1];
    StripKeeps(s);
    assert s[1..] == d;
  }
}
