/** The handful of Python `str` builtins the listing parsers rely on, over `seq<char>`. */
module PyStr {

  /** `str.isspace` for one character: the characters `str.strip()` removes. */
  predicate IsSpace(c: char) {
    || c == ' '
    || ('\t' <= c <= '\r')
    || ('\U{1C}' <= c <= '\U{1F}')
    || c == '\U{85}' || c == '\U{A0}' || c == '\U{1680}'
    || ('\U{2000}' <= c <= '\U{200A}')
    || c == '\U{2028}' || c == '\U{2029}' || c == '\U{202F}' || c == '\U{205F}' || c == '\U{3000}'
  }

  /** An ASCII decimal digit (what `\d` and `str.isdigit` accept among ASCII characters). */
  predicate IsDigit(c: char) {
    '0' <= c <= '9'
  }

  function DigitValue(c: char): (d: nat)
    requires IsDigit(c)
    ensures d <= 9
  {
    c as int - '0' as int
  }

  function DigitChar(d: nat): (c: char)
    requires d <= 9
    ensures IsDigit(c) && DigitValue(c) == d
  {
    ('0' as int + d) as char
  }

  /** Leading whitespace removed. */
  function StripLeft(s: string): (r: string)
    ensures |r| <= |s|
    ensures r != [] ==> !IsSpace(r[0])
  {
    if s != [] && IsSpace(s[0]) then StripLeft(s[1..]) else s
  }

  /** Trailing whitespace removed. */
  function StripRight(s: string): (r: string)
    ensures |r| <= |s|
    ensures r != [] ==> !IsSpace(r[|r| - 1])
  {
    if s != [] && IsSpace(s[|s| - 1]) then StripRight(s[..|s| - 1]) else s
  }

  /** `s.strip()`. */
  function Strip(s: string): (r: string)
    ensures r != [] ==> !IsSpace(r[0]) && !IsSpace(r[|r| - 1])
  {
    var left := StripLeft(s);
    StripRightDrops(left);
    StripRight(left)
  }

  /** Stripping on the left keeps a suffix and drops only whitespace. */
  lemma {:induction false} StripLeftDrops(s: string)
    ensures var r := StripLeft(s);
      && r == s[|s| - |r|..]
      && forall i :: 0 <= i < |s| - |r| ==> IsSpace(s[i])
  {
    if s != [] && IsSpace(s[0]) {
      StripLeftDrops(s[1..]);
    }
  }

  /** Stripping on the right keeps a prefix and drops only whitespace. */
  lemma {:induction false} StripRightDrops(s: string)
    ensures var r := StripRight(s);
      && r == s[..|r|]
      && forall i :: |r| <= i < |s| ==> IsSpace(s[i])
  {
    if s != [] && IsSpace(s[|s| - 1]) {
      StripRightDrops(s[..|s| - 1]);
    }
  }

  /** Index of the first `c` in `s`, or `|s|` when there is none (`str.find` with -1 as `|s|`). */
  function IndexOf(s: string, c: char): (k: nat)
    ensures k <= |s|
    ensures k < |s| ==> s[k] == c
    ensures forall j :: 0 <= j < k ==> s[j] != c
  {
    if s == [] || s[0] == c then 0 else 1 + IndexOf(s[1..], c)
  }

  /** `s.split(sep, 1)`: the whole string, or the parts before and after the first `sep`. */
  function SplitOnce(s: string, sep: char): (parts: seq<string>)
    ensures 1 <= |parts| <= 2
    ensures |parts| == 1 <==> sep !in s
    ensures |parts| == 1 ==> parts[0] == s
    ensures |parts| == 2 ==> parts[0] + [sep] + parts[1] == s && sep !in parts[0]
  {
    var k := IndexOf(s, sep);
    if k == |s| then [s] else [s[..k], s[k + 1..]]
  }

  /** `s.replace(c, "")` for a one-character `c`. */
  function Remove(s: string, c: char): (r: string)
    ensures c !in r && |r| <= |s|
    ensures forall x :: x in r ==> x in s
    ensures c !in s ==> r == s
  {
    if s == [] then [] else (if s[0] == c then [] else [s[0]]) + Remove(s[1..], c)
  }

  /** `s.lower()` restricted to ASCII letters. */
  function Lower(s: string): (r: string)
    ensures |r| == |s|
  {
    if s == [] then []
    else [if 'A' <= s[0] <= 'Z' then (s[0] as int + 32) as char else s[0]] + Lower(s[1..])
  }

  /** `sub in s` for strings. */
  function Contains(s: string, sub: string): bool
    decreases |s|
  {
    if |s| < |sub| then false else s[..|sub|] == sub || Contains(s[1..], sub)
  }

  /** The value of a string of decimal digits, as `int(ds)` reads it. */
  function DigitsValue(ds: string): (v: nat)
    requires forall i :: 0 <= i < |ds| ==> IsDigit(ds[i])
  {
    if ds == [] then 0 else DigitsValue(ds[..|ds| - 1]) * 10 + DigitValue(ds[|ds| - 1])
  }

  /** `str(n)` for a natural number. */
  function NatToString(n: nat): (s: string)
    ensures s != [] && forall i :: 0 <= i < |s| ==> IsDigit(s[i])
  {
    if n < 10 then [DigitChar(n)] else NatToString(n / 10) + [DigitChar(n % 10)]
  }

  /** `str(n)` for any integer. */
  function IntToString(n: int): string {
    if n < 0 then "-" + NatToString(-n) else NatToString(n)
  }

  /** The length of the run of digits `s` starts with. */
  function DigitRun(s: string): (k: nat)
    ensures k <= |s|
    ensures forall i :: 0 <= i < k ==> IsDigit(s[i])
    ensures k < |s| ==> !IsDigit(s[k])
  {
    if s == [] || !IsDigit(s[0]) then 0 else 1 + DigitRun(s[1..])
  }

  /** The digit run of digits followed by a non-digit is exactly those digits. */
  lemma {:induction false} DigitRunOf(a: string, x: string)
    requires forall i :: 0 <= i < |a| ==> IsDigit(a[i])
    requires x != [] && !IsDigit(x[0])
    ensures DigitRun(a + x) == |a|
  {
    if a != [] {
      assert (a + x)[1..] == a[1..] + x;
      DigitRunOf(a[1..], x);
    }
  }

  /** Two runs of digits, each followed by a non-digit, that spell the same text are the same run. */
  lemma DigitRunsAgree(a: string, x: string, b: string, y: string)
    requires forall i :: 0 <= i < |a| ==> IsDigit(a[i])
    requires forall i :: 0 <= i < |b| ==> IsDigit(b[i])
    requires x != [] && !IsDigit(x[0]) && y != [] && !IsDigit(y[0])
    ensures a + x == b + y ==> a == b
  {
    if a + x == b + y {
      DigitRunOf(a, x);
      DigitRunOf(b, y);
      assert a == (a + x)[..|a|];
      assert b == (b + y)[..|b|];
    }
  }

  /**
   * Texts that share a prefix and a tail, with digits between them, agree on those digits,
   * provided the tail is empty or starts with a non-digit.
   */
  lemma DigitsAfterPrefixAgree(prefix: string, a: string, x: string, b: string)
    requires forall i :: 0 <= i < |a| ==> IsDigit(a[i])
    requires forall i :: 0 <= i < |b| ==> IsDigit(b[i])
    requires x == [] || !IsDigit(x[0])
    ensures prefix + a + x == prefix + b + x ==> a == b
  {
    if prefix + a + x == prefix + b + x {
      assert a + x == (prefix + a + x)[|prefix|..];
      assert b + x == (prefix + b + x)[|prefix|..];
      if x == [] {
        assert a == a + x && b == b + x;
      } else {
        DigitRunsAgree(a, x, b, x);
      }
    }
  }

  /** Reading back what `str` wrote gives the number again. */
  lemma {:induction false} NatToStringRoundTrip(n: nat)
    ensures DigitsValue(NatToString(n)) == n
  {
    if n >= 10 {
      NatToStringRoundTrip(n / 10);
      var s := NatToString(n);
      assert s[..|s| - 1] == NatToString(n / 10);
    }
  }

  /** Splitting at the first separator of `a + [sep] + b`, where `a` has none, gives `a` and `b`. */
  lemma SplitOnceAt(a: string, sep: char, b: string)
    requires sep !in a
    ensures SplitOnce(a + [sep] + b, sep) == [a, b]
  {
    var s := a + [sep] + b;
    assert s[|a|] == sep;
    assert IndexOf(s, sep) == |a|;
    assert s[..|a|] == a && s[|a| + 1..] == b;
  }

  /** When `sep` occurs, the second part is what follows its first occurrence and the first part what precedes it. */
  lemma SplitOnceParts(s: string, sep: char)
    requires sep in s
    ensures var parts := SplitOnce(s, sep);
      var n := |s| - |parts[1]|;
      && |parts| == 2 && 0 < n <= |s|
      && s[n - 1] == sep && s[n..] == parts[1] && s[..n - 1] == parts[0] && sep !in parts[0]
      && (forall c :: c in parts[0] ==> c in s)
      && (forall c :: c in parts[1] ==> c in s)
  {
    var parts := SplitOnce(s, sep);
    assert parts[0] + [sep] + parts[1] == s;
    var n := |s| - |parts[1]|;
    assert s[..n - 1] == parts[0] && s[n..] == parts[1];
  }

  /** Splitting twice at `sep` gives two parts without `sep` that, each with a `sep` after it, start the text. */
  lemma SplitTwice(s: string, sep: char)
    requires |SplitOnce(s, sep)| == 2 && |SplitOnce(SplitOnce(s, sep)[1], sep)| == 2
    ensures var a, b := SplitOnce(s, sep)[0], SplitOnce(SplitOnce(s, sep)[1], sep)[0];
      && sep !in a && sep !in b
      && |a| + |b| + 2 <= |s| && s[..|a| + |b| + 2] == a + [sep] + b + [sep]
  {
    var first := SplitOnce(s, sep);
    var second := SplitOnce(first[1], sep);
    PrefixOfTwoParts(s, first[0], first[1], second[0], second[1], sep);
  }

  /** A text made of `a`, `sep` and a text made of `b`, `sep` and `rest` starts with `a`, `sep`, `b`, `sep`. */
  lemma PrefixOfTwoParts(s: string, a: string, tail: string, b: string, rest: string, sep: char)
    requires s == a + [sep] + tail && tail == b + [sep] + rest
    ensures |a| + |b| + 2 <= |s| && s[..|a| + |b| + 2] == a + [sep] + b + [sep]
  {
    var front := a + [sep] + b + [sep];
    assert s == front + rest;
    assert s[..|front|] == front;
  }

  /** Whitespace before a text that starts with a visible character is all that left stripping removes. */
  lemma {:induction false} StripLeftPadded(lead: string, s: string)
    requires forall i :: 0 <= i < |lead| ==> IsSpace(lead[i])
    requires s == [] || !IsSpace(s[0])
    ensures StripLeft(lead + s) == s
  {
    if lead != [] {
      assert (lead + s)[1..] == lead[1..] + s;
      StripLeftPadded(lead[1..], s);
    }
  }

  /** Whitespace after a text that ends with a visible character is all that right stripping removes. */
  lemma {:induction false} StripRightPadded(s: string, trail: string)
    requires forall i :: 0 <= i < |trail| ==> IsSpace(trail[i])
    requires s == [] || !IsSpace(s[|s| - 1])
    ensures StripRight(s + trail) == s
  {
    if trail != [] {
      var t := trail[..|trail| - 1];
      assert (s + trail)[..|s + trail| - 1] == s + t;
      StripRightPadded(s, t);
    }
  }

  /** `strip` gives back a text that has visible ends, whatever whitespace surrounds it. */
  lemma StripPadded(lead: string, s: string, trail: string)
    requires forall i :: 0 <= i < |lead| ==> IsSpace(lead[i])
    requires forall i :: 0 <= i < |trail| ==> IsSpace(trail[i])
    requires s != [] && !IsSpace(s[0]) && !IsSpace(s[|s| - 1])
    ensures Strip(lead + s + trail) == s
  {
    assert lead + s + trail == lead + (s + trail);
    StripLeftPadded(lead, s + trail);
    StripRightPadded(s, trail);
  }

  /** A text that neither starts nor ends with whitespace is its own strip. */
  lemma StripUnchanged(s: string)
    requires s != [] && !IsSpace(s[0]) && !IsSpace(s[|s| - 1])
    ensures Strip(s) == s
  {
    assert StripLeft(s) == s;
  }
}
