/** Strings as sequences of characters: ASCII case mapping, substring search,
    decimal digits and the splitting of a text at a separator. */
module Text {

  /** ASCII lower-casing of one character; every other character is kept. */
  function LowerChar(c: char): char {
    if 'A' <= c <= 'Z' then (c as int + 32) as char else c
  }

  /** ASCII upper-casing of one character; every other character is kept. */
  function UpperChar(c: char): char {
    if 'a' <= c <= 'z' then (c as int - 32) as char else c
  }

  /** Python's `s.lower()`, restricted to the ASCII letters. */
  function Lower(s: string): (r: string)
    ensures |r| == |s|
    ensures forall i :: 0 <= i < |s| ==> r[i] == LowerChar(s[i])
  {
    seq(|s|, i requires 0 <= i < |s| => LowerChar(s[i]))
  }

  /** Python's `s.upper()`, restricted to the ASCII letters. */
  function Upper(s: string): (r: string)
    ensures |r| == |s|
    ensures forall i :: 0 <= i < |s| ==> r[i] == UpperChar(s[i])
  {
    seq(|s|, i requires 0 <= i < |s| => UpperChar(s[i]))
  }

  /** `sub` starts at position `i` of `s`. */
  predicate OccursAt(s: string, sub: string, i: int) {
    0 <= i && i + |sub| <= |s| && s[i..i + |sub|] == sub
  }

  /** Python's `sub in s`. */
  predicate Contains(s: string, sub: string) {
    exists i :: 0 <= i <= |s| && OccursAt(s, sub, i)
  }

  /** Every character of a found substring is a character of the text. */
  lemma ContainsChars(s: string, sub: string)
    requires Contains(s, sub)
    ensures forall c :: c in sub ==> c in s
  {
    var i :| 0 <= i <= |s| && OccursAt(s, sub, i);
    forall c | c in sub ensures c in s {
      var k :| 0 <= k < |sub| && sub[k] == c;
      assert s[i + k] == sub[k];
    }
  }

  /** A text lacking one character of `sub` does not contain `sub`. */
  lemma Absent(s: string, sub: string, c: char)
    requires c in sub && c !in s
    ensures !Contains(s, sub)
  {
    if Contains(s, sub) {
      ContainsChars(s, sub);
    }
  }

  predicate IsDigit(c: char) {
    '0' <= c <= '9'
  }

  predicate AllDigits(s: string) {
    forall i :: 0 <= i < |s| ==> IsDigit(s[i])
  }

  function DigitChar(d: nat): (c: char)
    requires d < 10
    ensures IsDigit(c)
  {
    (d + 48) as char
  }

  function DigitValue(c: char): (d: nat)
    requires IsDigit(c)
    ensures d < 10
  {
    c as int - 48
  }

  /** The decimal rendering of `n`, as Python's `str(n)` or `f"{n}"` writes it. */
  function NatToString(n: nat): (r: string)
    ensures |r| >= 1 && AllDigits(r)
  {
    if n < 10 then [DigitChar(n)] else NatToString(n / 10) + [DigitChar(n % 10)]
  }

  /** The number a string of decimal digits denotes. */
  function DigitsValue(s: string): nat
    requires AllDigits(s)
  {
    if s == [] then 0 else DigitsValue(s[..|s| - 1]) * 10 + DigitValue(s[|s| - 1])
  }

  /** Reading back a rendered number gives the number. */
  lemma {:induction false} NatToStringRoundTrip(n: nat)
    ensures DigitsValue(NatToString(n)) == n
  {
    if n >= 10 {
      var s := NatToString(n);
      assert s[..|s| - 1] == NatToString(n / 10);
      NatToStringRoundTrip(n / 10);
    }
  }

  /** Python's `sep.join(xs)`. */
  function Join(sep: string, xs: seq<string>): string {
    if |xs| == 0 then "" else if |xs| == 1 then xs[0] else xs[0] + sep + Join(sep, xs[1..])
  }

  /** The number of occurrences of `c` in `s`. */
  function CountChar(s: string, c: char): nat {
    if s == [] then 0 else (if s[0] == c then 1 else 0) + CountChar(s[1..], c)
  }

  /** The pieces between occurrences of `sep`: Python's `s.split(sep)`. */
  function Split(s: string, sep: char): (r: seq<string>)
    ensures |r| >= 1
  {
    if s == [] then [""]
    else if s[0] == sep then [""] + Split(s[1..], sep)
    else var rest := Split(s[1..], sep); [[s[0]] + rest[0]] + rest[1..]
  }

  /** A text has one more piece than it has separators. */
  lemma {:induction false} SplitCount(s: string, sep: char)
    ensures |Split(s, sep)| == CountChar(s, sep) + 1
  {
    if s != [] {
      SplitCount(s[1..], sep);
    }
  }

  /** A text without the separator is a single piece. */
  lemma {:induction false} SplitNoSeparator(s: string, sep: char)
    requires sep !in s
    ensures Split(s, sep) == [s]
  {
    if s != [] {
      assert s[0] != sep;
      assert forall c :: c in s[1..] ==> c in s;
      SplitNoSeparator(s[1..], sep);
      assert [s[0]] + s[1..] == s;
    }
  }

  /** A piece without the separator, followed by the separator, is the first piece. */
  lemma {:induction false} SplitAppend(a: string, sep: char, b: string)
    requires sep !in a
    ensures Split(a + [sep] + b, sep) == [a] + Split(b, sep)
  {
    var s := a + [sep] + b;
    if a == [] {
      assert s[0] == sep && s[1..] == b;
    } else {
      assert a[0] in a;
      assert s[0] == a[0] && s[1..] == a[1..] + [sep] + b;
      assert forall c :: c in a[1..] ==> c in a;
      SplitAppend(a[1..], sep, b);
      assert [a[0]] + a[1..] == a;
    }
  }

  /** The case of a literal: `Upper(s)` is `up` when they agree character by character. */
  lemma UpperIs(s: string, up: string)
    requires |s| == |up| && forall i :: 0 <= i < |s| ==> UpperChar(s[i]) == up[i]
    ensures Upper(s) == up
  {
  }

  lemma LowerIs(s: string, low: string)
    requires |s| == |low| && forall i :: 0 <= i < |s| ==> LowerChar(s[i]) == low[i]
    ensures Lower(s) == low
  {
  }

  /** `Upper` applied to each word. */
  function UpperAll(ws: seq<string>): (r: seq<string>)
    ensures |r| == |ws| && forall i :: 0 <= i < |ws| ==> r[i] == Upper(ws[i])
  {
    seq(|ws|, i requires 0 <= i < |ws| => Upper(ws[i]))
  }

  lemma UpperAppend(a: string, b: string)
    ensures Upper(a + b) == Upper(a) + Upper(b)
  {
  }

  /** Upper-casing keeps every space where it is, so it works word by word. */
  lemma {:induction false} UpperJoin(ws: seq<string>)
    ensures Upper(Join(" ", ws)) == Join(" ", UpperAll(ws))
  {
    if |ws| > 1 {
      UpperJoin(ws[1..]);
      assert UpperAll(ws[1..]) == UpperAll(ws)[1..];
      UpperAppend(ws[0] + " ", Join(" ", ws[1..]));
      UpperAppend(ws[0], " ");
    }
  }

  /** Splitting undoes joining, for pieces that do not contain the separator. */
  lemma {:induction false} SplitJoin(ws: seq<string>, sep: char)
    requires |ws| >= 1
    requires forall i :: 0 <= i < |ws| ==> sep !in ws[i]
    ensures Split(Join([sep], ws), sep) == ws
  {
    if |ws| == 1 {
      SplitNoSeparator(ws[0], sep);
    } else {
      var rest := Join([sep], ws[1..]);
      assert Join([sep], ws) == ws[0] + [sep] + rest;
      SplitJoin(ws[1..], sep);
      SplitAppend(ws[0], sep, rest);
      assert [ws[0]] + ws[1..] == ws;
    }
  }
}
