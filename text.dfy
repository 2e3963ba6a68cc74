/**
 * The JavaScript string operations the application relies on, with the
 * semantics the engine gives them: `split` on a one-character separator,
 * `join`, `trim`, `startsWith`, `padStart(2, '0')`, the decimal rendering of
 * numbers and the `Number(text)` conversion.
 */
module Text {
  import opened Wrappers

  predicate IsDigit(c: char) { '0' <= c <= '9' }

  predicate AllDigits(s: string) { forall i :: 0 <= i < |s| ==> IsDigit(s[i]) }

  /** The characters `String.prototype.trim` removes: WhiteSpace and LineTerminator of ECMAScript. */
  predicate IsJsSpace(c: char) {
    || c == ' ' || c == '\t' || c == '\n' || c == '\r'
    || c == '\U{000B}' || c == '\U{000C}' || c == '\U{00A0}' || c == '\U{FEFF}'
    || c == '\U{1680}' || ('\U{2000}' <= c <= '\U{200A}')
    || c == '\U{2028}' || c == '\U{2029}' || c == '\U{202F}' || c == '\U{205F}' || c == '\U{3000}'
  }

  predicate StartsWith(s: string, prefix: string) {
    |prefix| <= |s| && s[..|prefix|] == prefix
  }

  // ---------------------------------------------------------------------
  // split and join

  /** `s.split(sep)`: the maximal runs between separators; never empty. */
  function Split(s: string, sep: char): (parts: seq<string>)
    ensures |parts| >= 1
    ensures forall i :: 0 <= i < |parts| ==> sep !in parts[i]
  {
    if |s| == 0 then [""]
    else
      var rest := Split(s[1..], sep);
      if s[0] == sep then [""] + rest
      else [[s[0]] + rest[0]] + rest[1..]
  }

  /** `parts.join(sep)` over strings. */
  function Join(parts: seq<string>, sep: char): string
  {
    if |parts| == 0 then ""
    else if |parts| == 1 then parts[0]
    else parts[0] + [sep] + Join(parts[1..], sep)
  }

  /** Joining the pieces of a split gives the original text back. */
  lemma {:induction false} SplitThenJoin(s: string, sep: char)
    ensures Join(Split(s, sep), sep) == s
  {
    if |s| > 0 {
      var rest := Split(s[1..], sep);
      SplitThenJoin(s[1..], sep);
      if s[0] == sep {
        assert Split(s, sep) == [""] + rest;
        assert Join(Split(s, sep), sep) == "" + [sep] + Join(rest, sep);
        assert s == [s[0]] + s[1..];
      } else {
        var parts := Split(s, sep);
        assert parts == [[s[0]] + rest[0]] + rest[1..];
        if |rest| == 1 {
          assert Join(parts, sep) == [s[0]] + rest[0];
        } else {
          assert parts[1..] == rest[1..];
          assert Join(parts, sep) == [s[0]] + rest[0] + [sep] + Join(rest[1..], sep);
          assert Join(rest, sep) == rest[0] + [sep] + Join(rest[1..], sep);
        }
        assert s == [s[0]] + s[1..];
      }
    }
  }

  /** A text without the separator splits into itself. */
  lemma {:induction false} SplitWithoutSeparator(a: string, sep: char)
    requires sep !in a
    ensures Split(a, sep) == [a]
  {
    if |a| > 0 {
      assert sep !in a[1..] by {
        forall k | 0 <= k < |a[1..]| ensures a[1..][k] != sep { assert a[1..][k] == a[k + 1]; }
      }
      SplitWithoutSeparator(a[1..], sep);
      assert a == [a[0]] + a[1..];
    }
  }

  /** Splitting `a + sep + b`, where `a` has no separator, yields `a` then the pieces of `b`. */
  lemma {:induction false} SplitAtFirstSeparator(a: string, sep: char, b: string)
    requires sep !in a
    ensures Split(a + [sep] + b, sep) == [a] + Split(b, sep)
  {
    var s := a + [sep] + b;
    if |a| == 0 {
      assert s == [sep] + b;
      assert s[1..] == b;
    } else {
      assert s[1..] == a[1..] + [sep] + b;
      assert sep !in a[1..] by {
        forall k | 0 <= k < |a[1..]| ensures a[1..][k] != sep { assert a[1..][k] == a[k + 1]; }
      }
      SplitAtFirstSeparator(a[1..], sep, b);
      assert [s[0]] + a[1..] == a;
    }
  }

  /** Two separator-free texts joined by one separator split back into the two. */
  lemma SplitPair(a: string, sep: char, b: string)
    requires sep !in a && sep !in b
    ensures Split(a + [sep] + b, sep) == [a, b]
  {
    SplitAtFirstSeparator(a, sep, b);
    SplitWithoutSeparator(b, sep);
  }

  /** Splitting a join of separator-free pieces gives the pieces back. */
  lemma {:induction false} JoinThenSplit(parts: seq<string>, sep: char)
    requires |parts| >= 1
    requires forall i :: 0 <= i < |parts| ==> sep !in parts[i]
    ensures Split(Join(parts, sep), sep) == parts
  {
    if |parts| == 1 {
      SplitWithoutSeparator(parts[0], sep);
    } else {
      JoinThenSplit(parts[1..], sep);
      SplitAtFirstSeparator(parts[0], sep, Join(parts[1..], sep));
      assert parts == [parts[0]] + parts[1..];
    }
  }

  /** A character absent from every part and distinct from the separator is absent from the join. */
  lemma {:induction false} JoinKeepsAbsent(parts: seq<string>, sep: char, c: char)
    requires c != sep
    requires forall i :: 0 <= i < |parts| ==> c !in parts[i]
    ensures c !in Join(parts, sep)
  {
    if |parts| > 1 {
      JoinKeepsAbsent(parts[1..], sep, c);
      assert Join(parts, sep) == parts[0] + [sep] + Join(parts[1..], sep);
    }
  }

  /** The number of pieces is one more than the number of separators. */
  lemma {:induction false} SplitCount(s: string, sep: char)
    ensures |Split(s, sep)| == multiset(s)[sep] + 1
  {
    if |s| > 0 {
      SplitCount(s[1..], sep);
      assert s == [s[0]] + s[1..];
      assert multiset(s) == multiset([s[0]]) + multiset(s[1..]);
    }
  }

  /** Total occurrences of `c` in a list of texts. */
  function Occurrences(parts: seq<string>, c: char): nat
  {
    if |parts| == 0 then 0 else multiset(parts[0])[c] + Occurrences(parts[1..], c)
  }

  lemma {:induction false} OccurrencesZero(parts: seq<string>, c: char)
    ensures Occurrences(parts, c) == 0 <==> forall i :: 0 <= i < |parts| ==> c !in parts[i]
  {
    if |parts| > 0 {
      OccurrencesZero(parts[1..], c);
      assert forall i :: 1 <= i < |parts| ==> parts[i] == parts[1..][i - 1];
    }
  }

  /**
   * Splitting a join gives one piece per joined part plus one per separator
   * character hidden inside the parts: a part containing the separator adds
   * pieces.
   */
  lemma {:induction false} JoinThenSplitLength(parts: seq<string>, sep: char)
    requires |parts| >= 1
    ensures |Split(Join(parts, sep), sep)| == |parts| + Occurrences(parts, sep)
  {
    JoinCount(parts, sep);
    SplitCount(Join(parts, sep), sep);
  }

  lemma {:induction false} JoinCount(parts: seq<string>, sep: char)
    requires |parts| >= 1
    ensures multiset(Join(parts, sep))[sep] == Occurrences(parts, sep) + |parts| - 1
  {
    if |parts| > 1 {
      JoinCount(parts[1..], sep);
      var j := Join(parts, sep);
      assert j == parts[0] + [sep] + Join(parts[1..], sep);
      assert multiset(j) == multiset(parts[0]) + multiset([sep]) + multiset(Join(parts[1..], sep));
    }
  }

  // ---------------------------------------------------------------------
  // trim, pad

  function TrimStart(s: string): (r: string)
    ensures r == "" || !IsJsSpace(r[0])
  {
    if |s| > 0 && IsJsSpace(s[0]) then TrimStart(s[1..]) else s
  }

  function TrimEnd(s: string): (r: string)
    ensures r == "" || !IsJsSpace(r[|r| - 1])
  {
    if |s| > 0 && IsJsSpace(s[|s| - 1]) then TrimEnd(s[..|s| - 1]) else s
  }

  /** `s.trim()`. */
  function Trim(s: string): string { TrimEnd(TrimStart(s)) }

  /** A text that neither starts nor ends with white space is its own trim. */
  lemma TrimUnchanged(s: string)
    requires s == "" || (!IsJsSpace(s[0]) && !IsJsSpace(s[|s| - 1]))
    ensures Trim(s) == s
  {}

  /** `trimEnd` only drops characters from the end. */
  lemma {:induction false} TrimEndIsPrefix(s: string)
    ensures |TrimEnd(s)| <= |s| && TrimEnd(s) == s[..|TrimEnd(s)|]
  {
    if |s| > 0 && IsJsSpace(s[|s| - 1]) {
      TrimEndIsPrefix(s[..|s| - 1]);
    }
  }

  /** Trimming a trimmed text changes nothing. */
  lemma TrimIdempotent(s: string)
    ensures Trim(Trim(s)) == Trim(s)
  {
    var u := Trim(s);
    TrimEndIsPrefix(TrimStart(s));
    if u != "" {
      assert u[0] == TrimStart(s)[0];
    }
    TrimUnchanged(u);
  }

  /** `s.padStart(2, '0')`. */
  function PadStart2(s: string): (r: string)
    ensures |r| == if |s| >= 2 then |s| else 2
    ensures r[|r| - |s|..] == s
    ensures forall i :: 0 <= i < |r| - |s| ==> r[i] == '0'
  {
    if |s| >= 2 then s else if |s| == 1 then "0" + s else "00"
  }

  // ---------------------------------------------------------------------
  // numbers rendered as text

  function DigitChar(d: nat): (c: char)
    requires d < 10
    ensures IsDigit(c)
  {
    (48 + d) as char
  }

  function DigitValue(c: char): (d: nat)
    requires IsDigit(c)
    ensures d < 10 && DigitChar(d) == c
  {
    (c as int) - 48
  }

  /** The decimal rendering of a natural number, as `n.toString()` gives it. */
  function NatToString(n: nat): (s: string)
    ensures |s| >= 1 && AllDigits(s)
  {
    if n < 10 then [DigitChar(n)] else NatToString(n / 10) + [DigitChar(n % 10)]
  }

  /** The value of a run of decimal digits (0 for the empty run). */
  function DigitsValue(s: string): nat
    requires AllDigits(s)
  {
    if |s| == 0 then 0 else DigitsValue(s[..|s| - 1]) * 10 + DigitValue(s[|s| - 1])
  }

  /** Reading back the decimal rendering of `n` gives `n`. */
  lemma {:induction false} NatToStringRoundTrip(n: nat)
    ensures DigitsValue(NatToString(n)) == n
  {
    if n >= 10 {
      var s := NatToString(n);
      assert s[..|s| - 1] == NatToString(n / 10);
      NatToStringRoundTrip(n / 10);
    }
  }

  /** Distinct naturals have distinct renderings. */
  lemma NatToStringInjective(i: nat, j: nat)
    requires NatToString(i) == NatToString(j)
    ensures i == j
  {
    NatToStringRoundTrip(i);
    NatToStringRoundTrip(j);
  }

  /** `n.toString()` for any integer. */
  function IntToString(n: int): string
  {
    if n < 0 then "-" + NatToString(-n) else NatToString(n)
  }

  /**
   * The rendering JavaScript gives a number with at most one decimal digit,
   * given as a count of tenths: 720 is "72", 366 is "36.6", -5 is "-0.5".
   */
  function TenthsToString(t: int): string
  {
    if t < 0 then "-" + UnsignedTenthsToString(-t) else UnsignedTenthsToString(t)
  }

  function UnsignedTenthsToString(a: nat): string
  {
    NatToString(a / 10) + (if a % 10 == 0 then "" else "." + [DigitChar(a % 10)])
  }

  // ---------------------------------------------------------------------
  // Number(text)

  /** The value of the digits after a decimal point. */
  function FractionValue(s: string): real
    requires AllDigits(s)
  {
    if |s| == 0 then 0.0 else (DigitValue(s[0]) as real + FractionValue(s[1..])) / 10.0
  }

  /** An unsigned decimal literal: digits, optionally a point and more digits, at least one digit. */
  function UnsignedDecimal(s: string): Option<real>
  {
    var parts := Split(s, '.');
    if |parts| == 1 then
      if s != "" && AllDigits(s) then Some(DigitsValue(s) as real) else None
    else if |parts| == 2 && AllDigits(parts[0]) && AllDigits(parts[1]) && (parts[0] != "" || parts[1] != "") then
      Some(DigitsValue(parts[0]) as real + FractionValue(parts[1]))
    else None
  }

  function Negate(r: Option<real>): Option<real>
  {
    match r
    case None => None
    case Some(v) => Some(-v)
  }

  /**
   * `Number(s)`: surrounding white space is ignored, the empty text is 0, a
   * signed decimal literal is its value; `None` stands for NaN.
   */
  function JsNumber(s: string): Option<real>
  {
    var t := Trim(s);
    if t == "" then Some(0.0)
    else if t[0] == '-' then Negate(UnsignedDecimal(t[1..]))
    else if t[0] == '+' then UnsignedDecimal(t[1..])
    else UnsignedDecimal(t)
  }

  lemma DigitsHaveNoSpecials(s: string)
    requires AllDigits(s)
    ensures '.' !in s && '/' !in s && ',' !in s && ' ' !in s && '\n' !in s && ':' !in s
    ensures s == "" || (!IsJsSpace(s[0]) && !IsJsSpace(s[|s| - 1]))
  {
    forall c | c in s ensures IsDigit(c) {
      var i :| 0 <= i < |s| && s[i] == c;
    }
  }

  /** `Number(String(n))` is `n` for a natural number. */
  lemma NatNumberRoundTrip(n: nat)
    ensures JsNumber(NatToString(n)) == Some(n as real)
  {
    var s := NatToString(n);
    DigitsHaveNoSpecials(s);
    TrimUnchanged(s);
    SplitWithoutSeparator(s, '.');
    NatToStringRoundTrip(n);
    assert !IsDigit('-') && !IsDigit('+');
  }

  /** The unsigned rendering of a count of tenths reads back as that count of tenths. */
  lemma UnsignedTenthsRoundTrip(a: nat)
    ensures UnsignedDecimal(UnsignedTenthsToString(a)) == Some(a as real / 10.0)
  {
    var whole := NatToString(a / 10);
    DigitsHaveNoSpecials(whole);
    NatToStringRoundTrip(a / 10);
    if a % 10 == 0 {
      assert UnsignedTenthsToString(a) == whole;
      SplitWithoutSeparator(whole, '.');
      assert (a / 10) as real == a as real / 10.0;
    } else {
      var frac: string := [DigitChar(a % 10)];
      assert UnsignedTenthsToString(a) == whole + ['.'] + frac;
      DigitsHaveNoSpecials(frac);
      SplitAtFirstSeparator(whole, '.', frac);
      SplitWithoutSeparator(frac, '.');
      assert FractionValue(frac) == (a % 10) as real / 10.0;
      assert a == (a / 10) * 10 + a % 10;
    }
  }

  lemma UnsignedTenthsShape(a: nat)
    ensures var s := UnsignedTenthsToString(a); |s| >= 1 && IsDigit(s[0]) && IsDigit(s[|s| - 1])
  {}

  /** `Number` of a digit-delimited text, with or without a leading minus sign. */
  lemma JsNumberOfSigned(body: string)
    requires |body| >= 1 && IsDigit(body[0]) && IsDigit(body[|body| - 1])
    ensures JsNumber(body) == UnsignedDecimal(body)
    ensures JsNumber("-" + body) == Negate(UnsignedDecimal(body))
  {
    TrimUnchanged(body);
    var neg := "-" + body;
    assert neg[|neg| - 1] == body[|body| - 1];
    TrimUnchanged(neg);
    assert neg[1..] == body;
  }

  /** The rendering of a number holds no comma and no newline, so it never splits a CSV row or line. */
  lemma TenthsTextIsPlain(t: int)
    ensures ',' !in TenthsToString(t) && '\n' !in TenthsToString(t)
  {
    var a: nat := if t < 0 then -t else t;
    var whole := NatToString(a / 10);
    DigitsHaveNoSpecials(whole);
    assert UnsignedTenthsToString(a) == whole + (if a % 10 == 0 then "" else "." + [DigitChar(a % 10)]);
  }

  /** `Number` reads the rendering of a non-negative number back, and with a minus sign its negation. */
  lemma UnsignedTenthsNumber(a: nat)
    ensures JsNumber(UnsignedTenthsToString(a)) == Some(a as real / 10.0)
    ensures JsNumber("-" + UnsignedTenthsToString(a)) == Some(-(a as real / 10.0))
  {
    var body := UnsignedTenthsToString(a);
    UnsignedTenthsShape(a);
    UnsignedTenthsRoundTrip(a);
    JsNumberOfSigned(body);
  }

  /** `Number(String(x))` is `x` for every non-negative number with at most one decimal digit. */
  lemma TenthsNumberRoundTrip(t: nat)
    ensures JsNumber(TenthsToString(t)) == Some(t as real / 10.0)
  {
    UnsignedTenthsNumber(t);
  }
}
