/**
 * String helpers that stand for the few JavaScript and PHP string builtins the
 * modelled code relies on: `String(n)` on a whole number, `padStart`, `split`,
 * `trim`, and the digit parsing done by `intval`/`floatval`.
 */
module Text {

  predicate IsDigit(c: char) { '0' <= c <= '9' }

  predicate AllDigits(s: string) { forall i :: 0 <= i < |s| ==> IsDigit(s[i]) }

  function DigitChar(d: nat): (c: char)
    requires d < 10
    ensures IsDigit(c) && c as int - '0' as int == d
  {
    ['0', '1', '2', '3', '4', '5', '6', '7', '8', '9'][d]
  }

  function DigitValue(c: char): nat
    requires IsDigit(c)
  {
    c as int - '0' as int
  }

  /** The value of a string of decimal digits, read most significant digit first. */
  function ParseDigits(s: string): nat
    requires AllDigits(s)
  {
    if s == [] then 0 else 10 * ParseDigits(s[..|s| - 1]) + DigitValue(s[|s| - 1])
  }

  /** `String(n)` for a whole number: its shortest decimal spelling. */
  function NatToString(n: nat): string {
    if n < 10 then [DigitChar(n)] else NatToString(n / 10) + [DigitChar(n % 10)]
  }

  /** The spelling is a non-empty string of digits that reads back as `n`, with a leading zero only for 0 itself. */
  lemma {:induction false} NatToStringReadsBack(n: nat)
    ensures var r := NatToString(n);
      && |r| >= 1 && AllDigits(r)
      && ParseDigits(r) == n
      && (r[0] == '0' ==> n == 0 && r == "0")
  {
    if n >= 10 {
      var prefix := NatToString(n / 10);
      NatToStringReadsBack(n / 10);
      assert (prefix + [DigitChar(n % 10)])[..|prefix|] == prefix;
    }
  }

  /** Numbers below one hundred are spelled with at most two digits. */
  lemma NatToStringBelowHundred(n: nat)
    requires n < 100
    ensures |NatToString(n)| <= 2
  {
    if n >= 10 {
      NatToStringReadsBack(n / 10);
      assert |NatToString(n / 10)| == 1;
    }
  }

  /** `count` copies of the character `c`. */
  function Repeat(c: char, count: nat): string {
    if count == 0 then [] else [c] + Repeat(c, count - 1)
  }

  /** `count` copies of `c`, nothing else. */
  lemma {:induction false} RepeatShape(c: char, count: nat)
    ensures |Repeat(c, count)| == count
    ensures forall i :: 0 <= i < count ==> Repeat(c, count)[i] == c
  {
    if count > 0 {
      RepeatShape(c, count - 1);
    }
  }

  /** `s.padStart(width, c)`: `s` preceded by as many `c` as it takes to reach `width` characters. */
  function PadStart(s: string, width: nat, c: char): string {
    if |s| < width then Repeat(c, width - |s|) + s else s
  }

  /** The padded text is `width` long (or `s` itself when that is longer), ends in `s` and starts with fill characters only. */
  lemma PadStartShape(s: string, width: nat, c: char)
    ensures var r := PadStart(s, width, c);
      && |r| == (if |s| < width then width else |s|)
      && r[|r| - |s|..] == s
      && forall i :: 0 <= i < |r| - |s| ==> r[i] == c
  {
    if |s| < width {
      RepeatShape(c, width - |s|);
    }
  }

  /** Zeros in front of a digit string do not change its value. */
  lemma {:induction false} ParseDigitsLeadingZeros(zeros: string, s: string)
    requires forall i :: 0 <= i < |zeros| ==> zeros[i] == '0'
    requires AllDigits(s)
    ensures AllDigits(zeros + s) && ParseDigits(zeros + s) == ParseDigits(s)
  {
    assert AllDigits(zeros + s);
    if s == [] {
      assert zeros + s == zeros;
      AllZerosParse(zeros);
    } else {
      var init := s[..|s| - 1];
      assert (zeros + s)[..|zeros + s| - 1] == zeros + init;
      ParseDigitsLeadingZeros(zeros, init);
    }
  }

  lemma {:induction false} AllZerosParse(zeros: string)
    requires forall i :: 0 <= i < |zeros| ==> zeros[i] == '0'
    ensures AllDigits(zeros) && ParseDigits(zeros) == 0
  {
    if zeros != [] {
      AllZerosParse(zeros[..|zeros| - 1]);
    }
  }

  /** A number below 100 padded to two places is two digits that read back as the number. */
  lemma PadTwoDigits(n: nat)
    requires n < 100
    ensures var m := PadStart(NatToString(n), 2, '0');
      |m| == 2 && AllDigits(m) && ParseDigits(m) == n
  {
    PadStartNatReadsBack(n, 2);
    NatToStringBelowHundred(n);
    PadStartShape(NatToString(n), 2, '0');
  }

  /** Padding a decimal spelling with zeros keeps its value: the padded number reads back as `n`. */
  lemma PadStartNatReadsBack(n: nat, width: nat)
    ensures AllDigits(PadStart(NatToString(n), width, '0'))
    ensures ParseDigits(PadStart(NatToString(n), width, '0')) == n
  {
    var s := NatToString(n);
    var r := PadStart(s, width, '0');
    NatToStringReadsBack(n);
    PadStartShape(s, width, '0');
    var zeros := r[..|r| - |s|];
    assert r == zeros + s;
    ParseDigitsLeadingZeros(zeros, s);
  }

  /** `s.split(sep)` for a one-character separator. */
  function Split(s: string, sep: char): (parts: seq<string>)
    ensures |parts| >= 1
    ensures forall k :: 0 <= k < |parts| ==> sep !in parts[k]
  {
    SplitFrom(s, sep, [])
  }

  /** Splitting `s` when the characters `acc` already belong to the current part. */
  function SplitFrom(s: string, sep: char, acc: string): (parts: seq<string>)
    requires sep !in acc
    ensures |parts| >= 1
    ensures forall k :: 0 <= k < |parts| ==> sep !in parts[k]
    decreases |s|
  {
    if s == [] then [acc]
    else if s[0] == sep then [acc] + SplitFrom(s[1..], sep, [])
    else SplitFrom(s[1..], sep, acc + [s[0]])
  }

  lemma {:induction false} SplitFromPiece(a: string, sep: char, acc: string, rest: string)
    requires sep !in acc && sep !in a
    ensures SplitFrom(a + [sep] + rest, sep, acc) == [acc + a] + Split(rest, sep)
    decreases |a|
  {
    if a == [] {
      assert a + [sep] + rest == [sep] + rest;
      assert ([sep] + rest)[1..] == rest;
      assert acc + a == acc;
    } else {
      assert (a + [sep] + rest)[0] == a[0];
      assert (a + [sep] + rest)[1..] == a[1..] + [sep] + rest;
      SplitFromPiece(a[1..], sep, acc + [a[0]], rest);
      assert acc + [a[0]] + a[1..] == acc + a;
    }
  }

  lemma {:induction false} SplitFromWhole(a: string, sep: char, acc: string)
    requires sep !in acc && sep !in a
    ensures SplitFrom(a, sep, acc) == [acc + a]
    decreases |a|
  {
    if a == [] {
      assert acc + a == acc;
    } else {
      SplitFromWhole(a[1..], sep, acc + [a[0]]);
      assert acc + [a[0]] + a[1..] == acc + a;
    }
  }

  /** The last part of a split is a suffix of the text that was split. */
  lemma SplitLastIsSuffix(s: string, sep: char)
    ensures var parts := Split(s, sep); var last := parts[|parts| - 1];
      |last| <= |s| && s[|s| - |last|..] == last
  {
    SplitFromLast(s, sep, []);
    assert [] + s == s;
  }

  lemma {:induction false} SplitFromLast(s: string, sep: char, acc: string)
    requires sep !in acc
    ensures var parts := SplitFrom(s, sep, acc); var last := parts[|parts| - 1];
      |last| <= |acc + s| && (acc + s)[|acc + s| - |last|..] == last
    decreases |s|
  {
    if s == [] {
      assert acc + s == acc;
    } else if s[0] == sep {
      SplitFromLast(s[1..], sep, []);
      assert [] + s[1..] == s[1..];
      var parts := SplitFrom(s, sep, acc);
      assert parts == [acc] + SplitFrom(s[1..], sep, []);
      var last := parts[|parts| - 1];
      assert (acc + s)[|acc + s| - |s[1..]|..] == s[1..];
    } else {
      SplitFromLast(s[1..], sep, acc + [s[0]]);
      assert acc + [s[0]] + s[1..] == acc + s;
    }
  }

  /** A piece without the separator, followed by the separator, splits off as the first part. */
  lemma SplitConcat(a: string, sep: char, rest: string)
    requires sep !in a
    ensures Split(a + [sep] + rest, sep) == [a] + Split(rest, sep)
  {
    SplitFromPiece(a, sep, [], rest);
    assert [] + a == a;
  }

  /** A string without the separator splits into itself alone. */
  lemma SplitWhole(a: string, sep: char)
    requires sep !in a
    ensures Split(a, sep) == [a]
  {
    SplitFromWhole(a, sep, []);
    assert [] + a == a;
  }

  /** Four fields joined by a separator, as a template string `${a}/${b}/${c}/${d}` writes them. */
  function Join4(a: string, b: string, c: string, d: string, sep: char): string {
    a + [sep] + b + [sep] + c + [sep] + d
  }

  /** Four pieces joined by a separator that none of them contains split back into those pieces. */
  lemma SplitFour(a: string, b: string, c: string, d: string, sep: char)
    requires sep !in a && sep !in b && sep !in c && sep !in d
    ensures Split(Join4(a, b, c, d, sep), sep) == [a, b, c, d]
  {
    assert a + [sep] + b + [sep] + c + [sep] + d == a + [sep] + (b + [sep] + (c + [sep] + d));
    SplitConcat(a, sep, b + [sep] + (c + [sep] + d));
    SplitConcat(b, sep, c + [sep] + d);
    SplitConcat(c, sep, d);
    SplitWhole(d, sep);
  }

  lemma DigitsHaveNo(s: string, c: char)
    requires AllDigits(s) && !IsDigit(c)
    ensures c !in s
  {
    assert forall i :: 0 <= i < |s| ==> s[i] != c;
  }

  /** The characters that JavaScript's `trim` removes (the Unicode space separators beyond no-break space are not modelled). */
  predicate IsJsSpace(c: char) {
    c == ' ' || c == '\t' || c == '\n' || c == '\r' || c == '\U{000B}' || c == '\U{000C}' || c == '\U{00A0}' || c == '\U{FEFF}'
  }

  /** The characters that PHP's `trim` removes by default. */
  predicate IsPhpSpace(c: char) {
    c == ' ' || c == '\t' || c == '\n' || c == '\r' || c == '\0' || c == '\U{000B}'
  }

  /** `s` without its leading spaces, in PHP's sense of space when `php` holds and JavaScript's otherwise. */
  function TrimStart(s: string, php: bool): (r: string)
    ensures |r| <= |s| && r == s[|s| - |r|..]
    ensures forall k :: 0 <= k < |s| - |r| ==> IsSpace(s[k], php)
    ensures r != [] ==> !IsSpace(r[0], php)
  {
    if s == [] || !IsSpace(s[0], php) then s else TrimStart(s[1..], php)
  }

  /** `s` without its trailing characters that satisfy the chosen space predicate. */
  function TrimEnd(s: string, php: bool): (r: string)
    ensures |r| <= |s| && r == s[..|r|]
    ensures forall k :: |r| <= k < |s| ==> IsSpace(s[k], php)
    ensures r != [] ==> !IsSpace(r[|r| - 1], php)
  {
    if s == [] || !IsSpace(s[|s| - 1], php) then s else TrimEnd(s[..|s| - 1], php)
  }

  predicate IsSpace(c: char, php: bool) {
    if php then IsPhpSpace(c) else IsJsSpace(c)
  }

  /** JavaScript's `s.trim()`. */
  function JsTrim(s: string): (r: string)
    ensures r != [] ==> !IsJsSpace(r[0]) && !IsJsSpace(r[|r| - 1])
  {
    TrimEnd(TrimStart(s, false), false)
  }

  /** PHP's `trim($s)`. */
  function PhpTrim(s: string): (r: string)
    ensures r != [] ==> !IsPhpSpace(r[0]) && !IsPhpSpace(r[|r| - 1])
  {
    TrimEnd(TrimStart(s, true), true)
  }

  /** A word with no space at either end. */
  predicate Clean(w: string, php: bool) {
    w != [] && !IsSpace(w[0], php) && !IsSpace(w[|w| - 1], php)
  }

  /** Trimming a clean word followed by spaces gives back the word. */
  lemma TrimPadded(w: string, tail: string, php: bool)
    requires Clean(w, php)
    requires forall k :: 0 <= k < |tail| ==> IsSpace(tail[k], php)
    ensures TrimEnd(TrimStart(w + tail, php), php) == w
  {
    assert (w + tail)[0] == w[0];
    TrimEndPadded(w, tail, php);
  }

  lemma {:induction false} TrimEndPadded(w: string, tail: string, php: bool)
    requires w != [] && !IsSpace(w[|w| - 1], php)
    requires forall k :: 0 <= k < |tail| ==> IsSpace(tail[k], php)
    ensures TrimEnd(w + tail, php) == w
    decreases |tail|
  {
    if tail == [] {
      assert w + tail == w;
    } else {
      var shorter := tail[..|tail| - 1];
      assert (w + tail)[..|w + tail| - 1] == w + shorter;
      TrimEndPadded(w, shorter, php);
    }
  }


  /** PHP's `empty()` on a string: the empty string and "0" both count as empty. */
  predicate PhpEmpty(s: string) { s == "" || s == "0" }

  /** The number of occurrences of `c` in `s`. */
  function CountChar(s: string, c: char): nat {
    if s == [] then 0 else (if s[0] == c then 1 else 0) + CountChar(s[1..], c)
  }

  lemma {:induction false} CountCharConcat(a: string, b: string, c: char)
    ensures CountChar(a + b, c) == CountChar(a, c) + CountChar(b, c)
  {
    if a == [] {
      assert a + b == b;
    } else {
      assert (a + b)[1..] == a[1..] + b;
      CountCharConcat(a[1..], b, c);
    }
  }

  /** A character that does not occur is counted zero times. */
  lemma {:induction false} CountCharAbsent(s: string, c: char)
    requires forall i :: 0 <= i < |s| ==> s[i] != c
    ensures CountChar(s, c) == 0
  {
    if s != [] {
      CountCharAbsent(s[1..], c);
    }
  }
}
