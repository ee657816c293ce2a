/**
 * The few JavaScript string operations the crawler relies on:
 * `String.prototype.trim`, `Number.prototype.toString` on integers,
 * `Array.prototype.join`, the `||` fallback on strings and string
 * concatenation with a possibly missing attribute.
 */
module Text {
  import opened Wrappers

  /** WhiteSpace and LineTerminator code points, the set that `trim` removes. */
  predicate IsJsSpace(c: char) {
    c == '\t' || c == '\n' || c == '\U{000B}' || c == '\U{000C}' || c == '\r' ||
    c == ' ' || c == '\U{00A0}' || c == '\U{1680}' ||
    ('\U{2000}' <= c <= '\U{200A}') ||
    c == '\U{2028}' || c == '\U{2029}' || c == '\U{202F}' || c == '\U{205F}' ||
    c == '\U{3000}' || c == '\U{FEFF}'
  }

  /** Drops the leading white space. */
  function TrimStart(s: string): string {
    if s != [] && IsJsSpace(s[0]) then TrimStart(s[1..]) else s
  }

  /** Drops the trailing white space. */
  function TrimEnd(s: string): string {
    if s != [] && IsJsSpace(s[|s| - 1]) then TrimEnd(s[..|s| - 1]) else s
  }

  /** `TrimStart(s)` is the suffix of `s` after its leading white space. */
  lemma {:induction false} TrimStartIsSuffix(s: string)
    ensures |TrimStart(s)| <= |s| && TrimStart(s) == s[|s| - |TrimStart(s)|..]
    ensures TrimStart(s) == [] || !IsJsSpace(TrimStart(s)[0])
    ensures forall i :: 0 <= i < |s| - |TrimStart(s)| ==> IsJsSpace(s[i])
  {
    if s != [] && IsJsSpace(s[0]) {
      var t := TrimStart(s[1..]);
      TrimStartIsSuffix(s[1..]);
      assert TrimStart(s) == t;
      assert s[1..][|s| - 1 - |t|..] == s[|s| - |t|..];
      forall i | 1 <= i < |s| - |t|
        ensures IsJsSpace(s[i])
      {
        assert s[i] == s[1..][i - 1];
      }
    }
  }

  /** `TrimEnd(s)` is the prefix of `s` before its trailing white space. */
  lemma {:induction false} TrimEndIsPrefix(s: string)
    ensures |TrimEnd(s)| <= |s| && TrimEnd(s) == s[..|TrimEnd(s)|]
    ensures TrimEnd(s) == [] || !IsJsSpace(TrimEnd(s)[|TrimEnd(s)| - 1])
    ensures forall i :: |TrimEnd(s)| <= i < |s| ==> IsJsSpace(s[i])
  {
    if s != [] && IsJsSpace(s[|s| - 1]) {
      var t := TrimEnd(s[..|s| - 1]);
      TrimEndIsPrefix(s[..|s| - 1]);
      assert TrimEnd(s) == t;
      assert s[..|s| - 1][..|t|] == s[..|t|];
      forall i | |t| <= i < |s| - 1
        ensures IsJsSpace(s[i])
      {
        assert s[i] == s[..|s| - 1][i];
      }
    }
  }

  /** `r` is the slice of `s` starting at `lo`, with only white space cut away on either side. */
  ghost predicate IsTrimOf(s: string, r: string, lo: int) {
    0 <= lo <= |s| - |r| && r == s[lo..lo + |r|]
    && (forall i :: 0 <= i < lo ==> IsJsSpace(s[i]))
    && (forall i :: lo + |r| <= i < |s| ==> IsJsSpace(s[i]))
  }

  /** `s.trim()`. */
  function Trim(s: string): string {
    TrimEnd(TrimStart(s))
  }

  /**
   * `Trim(s)` is the slice of `s` that neither starts nor ends with white
   * space, everything cut away on either side being white space.
   */
  lemma TrimIsSlice(s: string)
    ensures exists lo :: IsTrimOf(s, Trim(s), lo)
    ensures Trim(s) == [] || (!IsJsSpace(Trim(s)[0]) && !IsJsSpace(Trim(s)[|Trim(s)| - 1]))
  {
    var t := TrimStart(s);
    var r := TrimEnd(t);
    TrimStartIsSuffix(s);
    TrimEndIsPrefix(t);
    assert r == Trim(s);
    var lo := |s| - |t|;
    assert r == s[lo..lo + |r|];
    assert forall i :: lo + |r| <= i < |s| ==> s[i] == t[i - lo];
    assert IsTrimOf(s, r, lo);
  }

  /**
   * The JavaScript expression `v || fallback` for a string that may be absent:
   * absent and "" are falsy. The result is truthy whenever the fallback is.
   */
  function OrElse(v: Option<string>, fallback: string): (r: string)
    ensures r == fallback || (v == Some(r) && r != "")
    ensures (v.Some? && v.value != "") ==> r == v.value
    ensures fallback != "" ==> r != ""
  {
    if v.Some? && v.value != "" then v.value else fallback
  }

  /** The text an attribute contributes to a concatenation: a missing one reads "undefined". */
  function AttrText(v: Option<string>): string {
    match v
    case Some(s) => s
    case None => "undefined"
  }

  predicate IsDigit(c: char) {
    '0' <= c <= '9'
  }

  predicate AllDigits(s: string) {
    forall i :: 0 <= i < |s| ==> IsDigit(s[i])
  }

  function DigitChar(d: nat): (c: char)
    requires d < 10
    ensures IsDigit(c)
  {
    ('0' as int + d) as char
  }

  function DigitValue(c: char): (d: nat)
    requires IsDigit(c)
    ensures d < 10
  {
    (c as int - '0' as int) as nat
  }

  /** Decimal digits of `n`, most significant first, without leading zeros. */
  function NatToString(n: nat): (s: string)
    decreases n
  {
    if n < 10 then [DigitChar(n)] else NatToString(n / 10) + [DigitChar(n % 10)]
  }

  /** `Number.prototype.toString()` on an integer: a minus sign for negatives, then decimal digits. */
  function IntToString(i: int): string {
    if i < 0 then "-" + NatToString(-i) else NatToString(i)
  }

  function DigitsValue(s: string): nat
    requires AllDigits(s)
  {
    if s == [] then 0 else 10 * DigitsValue(s[..|s| - 1]) + DigitValue(s[|s| - 1])
  }

  /** Reads back what `IntToString` writes: an optional minus sign and at least one digit. */
  function ParseInt(s: string): Option<int> {
    if |s| > 1 && s[0] == '-' && AllDigits(s[1..]) then Some(-(DigitsValue(s[1..]) as int))
    else if |s| > 0 && AllDigits(s) then Some(DigitsValue(s))
    else None
  }

  lemma {:induction false} NatToStringDigits(n: nat)
    ensures |NatToString(n)| > 0 && AllDigits(NatToString(n))
    ensures DigitsValue(NatToString(n)) == n
    decreases n
  {
    if n >= 10 {
      var q, d := n / 10, n % 10;
      assert n == 10 * q + d;
      NatToStringDigits(q);
      var s := NatToString(n);
      assert s == NatToString(q) + [DigitChar(d)];
      assert s[..|s| - 1] == NatToString(q);
      assert DigitValue(s[|s| - 1]) == d;
    } else {
      assert DigitValue(DigitChar(n)) == n;
    }
  }

  /** Round trip: an integer written by `IntToString` reads back unchanged. */
  lemma IntToStringRoundTrip(i: int)
    ensures ParseInt(IntToString(i)) == Some(i)
  {
    if i < 0 {
      NatToStringDigits(-i);
      assert IntToString(i)[1..] == NatToString(-i);
    } else {
      NatToStringDigits(i);
    }
  }

  lemma IntToStringHasNo(i: int, sep: char)
    requires sep != '-' && !IsDigit(sep)
    ensures sep !in IntToString(i)
  {
    if i < 0 { NatToStringDigits(-i); } else { NatToStringDigits(i); }
  }

  /** `parts.join(sep)` with a one-character separator. */
  function Join(parts: seq<string>, sep: char): string {
    if parts == [] then "" else if |parts| == 1 then parts[0] else parts[0] + [sep] + Join(parts[1..], sep)
  }

  /** `s.split(sep)`: the maximal pieces between occurrences of `sep`. */
  function Split(s: string, sep: char): (parts: seq<string>)
    ensures |parts| >= 1
  {
    if s == [] then [""]
    else
      var rest := Split(s[1..], sep);
      if s[0] == sep then [""] + rest else [[s[0]] + rest[0]] + rest[1..]
  }

  lemma {:induction false} SplitAfter(a: string, sep: char, b: string)
    requires sep !in a
    ensures Split(a + [sep] + b, sep) == [a] + Split(b, sep)
  {
    if a != [] {
      assert (a + [sep] + b)[1..] == a[1..] + [sep] + b;
      assert a[0] in a && [a[0]] + a[1..] == a;
      SplitAfter(a[1..], sep, b);
    } else {
      assert (a + [sep] + b)[1..] == b;
    }
  }

  lemma {:induction false} SplitWithout(a: string, sep: char)
    requires sep !in a
    ensures Split(a, sep) == [a]
  {
    if a != [] {
      SplitWithout(a[1..], sep);
      assert [a[0]] + a[1..] == a;
    }
  }

  /** Round trip: splitting a join on a separator none of the parts contains gives the parts back. */
  lemma {:induction false} SplitJoin(parts: seq<string>, sep: char)
    requires |parts| >= 1
    requires forall i :: 0 <= i < |parts| ==> sep !in parts[i]
    ensures Split(Join(parts, sep), sep) == parts
  {
    if |parts| == 1 {
      SplitWithout(parts[0], sep);
    } else {
      SplitAfter(parts[0], sep, Join(parts[1..], sep));
      SplitJoin(parts[1..], sep);
      assert [parts[0]] + parts[1..] == parts;
    }
  }
}
