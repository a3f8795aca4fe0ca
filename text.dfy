/** The string operations the serial decoder relies on, as JavaScript defines
    them (`String.prototype.split` on one character, `String.prototype.trim`)
    and, for `parseInt(s, 10)` and `parseFloat(s)`, on the plain decimal
    notation a device sends. */
module Text {

  import opened Wrappers

  /** `s.split(sep)` for a one-character separator: the pieces between
      separators, in order. There is always at least one piece, no piece holds
      the separator, and there is one piece more than there are separators. */
  function Split(s: string, sep: char): (r: seq<string>)
    ensures |r| == Count(s, sep) + 1
    ensures forall i :: 0 <= i < |r| ==> sep !in r[i]
    decreases |s|
  {
    if s == [] then [""]
    else
      var rest := Split(s[1..], sep);
      if s[0] == sep then [""] + rest else [[s[0]] + rest[0]] + rest[1..]
  }

  /** The number of occurrences of `c` in `s`. */
  function Count(s: string, c: char): nat
    decreases |s|
  {
    if s == [] then 0 else (if s[0] == c then 1 else 0) + Count(s[1..], c)
  }

  /** `parts.join(sep)`: the pieces with one separator between each two. */
  function Join(parts: seq<string>, sep: char): string
    requires |parts| >= 1
    decreases |parts|
  {
    if |parts| == 1 then parts[0] else parts[0] + [sep] + Join(parts[1..], sep)
  }

  /** Joining the pieces of a split gives back the string. */
  lemma {:induction false} JoinSplit(s: string, sep: char)
    ensures Join(Split(s, sep), sep) == s
    decreases |s|
  {
    if s != [] {
      JoinSplit(s[1..], sep);
      var rest := Split(s[1..], sep);
      if s[0] == sep {
        assert s == [sep] + s[1..];
      } else if |rest| == 1 {
        assert s == [s[0]] + s[1..];
      } else {
        assert Join(rest, sep) == rest[0] + [sep] + Join(rest[1..], sep);
        assert s == [s[0]] + s[1..];
      }
    }
  }

  /** Splitting the join of separator-free pieces gives back the pieces. */
  lemma {:induction false} SplitJoin(parts: seq<string>, sep: char)
    requires |parts| >= 1
    requires forall i :: 0 <= i < |parts| ==> sep !in parts[i]
    ensures Split(Join(parts, sep), sep) == parts
    decreases |parts|
  {
    if |parts| == 1 {
      SplitNoSeparator(parts[0], sep);
    } else {
      SplitJoin(parts[1..], sep);
      SplitAfterPiece(parts[0], Join(parts[1..], sep), sep);
      assert parts == [parts[0]] + parts[1..];
    }
  }

  /** A separator-free piece followed by the separator splits off as the
      first piece. */
  lemma {:induction false} SplitAfterPiece(p: string, t: string, sep: char)
    requires sep !in p
    ensures Split(p + [sep] + t, sep) == [p] + Split(t, sep)
    decreases |p|
  {
    if p == [] {
      assert p + [sep] + t == [sep] + t;
      assert ([sep] + t)[1..] == t;
    } else {
      SplitAfterPiece(p[1..], t, sep);
      assert (p + [sep] + t)[1..] == p[1..] + [sep] + t;
      assert [p[0]] + p[1..] == p;
    }
  }

  /** A string without the separator splits into itself alone. */
  lemma {:induction false} SplitNoSeparator(s: string, sep: char)
    requires sep !in s
    ensures Split(s, sep) == [s]
    decreases |s|
  {
    if s != [] {
      SplitNoSeparator(s[1..], sep);
      assert s == [s[0]] + s[1..];
    }
  }

  /** Splitting `a + b` is splitting `a`, keeping its complete pieces, and
      splitting its last, unfinished piece continued by `b`. */
  predicate SplitsAcross(a: string, b: string, sep: char)
  {
    var sa := Split(a, sep);
    Split(a + b, sep) == sa[..|sa| - 1] + Split(sa[|sa| - 1] + b, sep)
  }

  /** The pieces do not depend on where the text was cut. */
  lemma {:induction false} SplitAppend(a: string, b: string, sep: char)
    ensures SplitsAcross(a, b, sep)
    decreases |a|
  {
    if a == [] {
      assert a + b == b;
    } else {
      SplitAppend(a[1..], b, sep);
      var rest := Split(a[1..], sep);
      if a[0] == sep {
        SplitsAcrossAfterSeparator(a, b, sep);
      } else if |rest| == 1 {
        SplitsAcrossInFirstPiece(a, b, sep);
      } else {
        SplitsAcrossAfterFirstPiece(a, b, sep);
      }
    }
  }

  /** Splitting a string is splitting its tail and then either starting a
      new piece (after a separator) or extending the first piece. */
  lemma SplitCons(c: char, t: string, sep: char)
    ensures var r := Split(t, sep);
      Split([c] + t, sep) == if c == sep then [""] + r else [[c] + r[0]] + r[1..]
  {
    assert ([c] + t)[1..] == t;
  }

  lemma SplitsAcrossAfterSeparator(a: string, b: string, sep: char)
    requires a != [] && a[0] == sep && SplitsAcross(a[1..], b, sep)
    ensures SplitsAcross(a, b, sep)
  {
    var c, t := a[0], a[1..];
    assert a == [c] + t && a + b == [c] + (t + b);
    SplitCons(c, t, sep);
    SplitCons(c, t + b, sep);
    var rest := Split(t, sep);
    Regroup("", rest, Split(rest[|rest| - 1] + b, sep));
  }

  lemma SplitsAcrossInFirstPiece(a: string, b: string, sep: char)
    requires a != [] && a[0] != sep && |Split(a[1..], sep)| == 1 && SplitsAcross(a[1..], b, sep)
    ensures SplitsAcross(a, b, sep)
  {
    var c, t := a[0], a[1..];
    assert a == [c] + t && a + b == [c] + (t + b);
    SplitCons(c, t, sep);
    SplitCons(c, t + b, sep);
    var rest := Split(t, sep);
    assert rest[..|rest| - 1] == [];
    assert Split(t + b, sep) == Split(rest[0] + b, sep);
    assert [c] + rest[0] + b == [c] + (rest[0] + b);
    SplitCons(c, rest[0] + b, sep);
  }

  lemma SplitsAcrossAfterFirstPiece(a: string, b: string, sep: char)
    requires a != [] && a[0] != sep && |Split(a[1..], sep)| > 1 && SplitsAcross(a[1..], b, sep)
    ensures SplitsAcross(a, b, sep)
  {
    var c, t := a[0], a[1..];
    assert a == [c] + t && a + b == [c] + (t + b);
    SplitCons(c, t, sep);
    SplitCons(c, t + b, sep);
    var rest := Split(t, sep);
    RegroupAfterFirst([c] + rest[0], rest, Split(rest[|rest| - 1] + b, sep));
  }

  /** The list reasoning behind `SplitsAcrossAfterSeparator`. */
  lemma Regroup<T>(p: T, rest: seq<T>, tail: seq<T>)
    requires |rest| >= 1
    ensures var s := [p] + rest;
      [p] + (rest[..|rest| - 1] + tail) == s[..|s| - 1] + tail && s[|s| - 1] == rest[|rest| - 1]
  {
    var s := [p] + rest;
    assert s[..|s| - 1] == [p] + rest[..|rest| - 1];
  }

  /** The list reasoning behind `SplitsAcrossAfterFirstPiece`. */
  lemma RegroupAfterFirst<T>(p: T, rest: seq<T>, tail: seq<T>)
    requires |rest| > 1
    ensures var r := rest[..|rest| - 1] + tail; var s := [p] + rest[1..];
      r[0] == rest[0] && [p] + r[1..] == s[..|s| - 1] + tail && s[|s| - 1] == rest[|rest| - 1]
  {
    var r := rest[..|rest| - 1] + tail;
    var s := [p] + rest[1..];
    assert r[1..] == rest[1..|rest| - 1] + tail;
    assert s[..|s| - 1] == [p] + rest[1..|rest| - 1];
  }

  /** The characters `String.prototype.trim` removes: the ECMAScript
      WhiteSpace and LineTerminator characters. */
  predicate IsSpace(c: char)
  {
    c == '\t' || c == '\n' || c == '\U{000B}' || c == '\U{000C}' || c == '\r' || c == ' ' ||
    c == '\U{00A0}' || c == '\U{1680}' || ('\U{2000}' <= c <= '\U{200A}') ||
    c == '\U{2028}' || c == '\U{2029}' || c == '\U{202F}' || c == '\U{205F}' ||
    c == '\U{3000}' || c == '\U{FEFF}'
  }

  /** The number of white-space characters `s` starts with. */
  function LeadingSpaces(s: string): (n: nat)
    ensures n <= |s|
    ensures forall i :: 0 <= i < n ==> IsSpace(s[i])
    ensures n < |s| ==> !IsSpace(s[n])
    decreases |s|
  {
    if s != [] && IsSpace(s[0]) then 1 + LeadingSpaces(s[1..]) else 0
  }

  /** The number of white-space characters `s` ends with. */
  function TrailingSpaces(s: string): (n: nat)
    ensures n <= |s|
    ensures forall i :: |s| - n <= i < |s| ==> IsSpace(s[i])
    ensures n < |s| ==> !IsSpace(s[|s| - 1 - n])
    decreases |s|
  {
    if s != [] && IsSpace(s[|s| - 1]) then 1 + TrailingSpaces(s[..|s| - 1]) else 0
  }

  /** `s.trim()`: the slice of `s` left once the white space at both ends is
      dropped. Everything before and after the slice is white space, and the
      slice neither starts nor ends with white space; so it is empty exactly
      when `s` is all white space. */
  function Trim(s: string): (r: string)
    ensures var lead := LeadingSpaces(s);
      && lead + |r| <= |s| && r == s[lead..lead + |r|]
      && (forall i :: 0 <= i < lead ==> IsSpace(s[i]))
      && (forall i :: lead + |r| <= i < |s| ==> IsSpace(s[i]))
    ensures r != [] ==> !IsSpace(r[0]) && !IsSpace(r[|r| - 1])
    ensures r == [] <==> forall i :: 0 <= i < |s| ==> IsSpace(s[i])
  {
    var lead := LeadingSpaces(s);
    if lead == |s| then []
    else
      var trail := TrailingSpaces(s);
      assert !IsSpace(s[lead]);
      s[lead..|s| - trail]
  }

  /** Trimming a string that neither starts nor ends with white space leaves
      it unchanged. */
  lemma TrimUntrimmed(s: string)
    requires s != [] && !IsSpace(s[0]) && !IsSpace(s[|s| - 1])
    ensures Trim(s) == s
  {
  }

  predicate IsDigit(c: char)
  {
    '0' <= c <= '9'
  }

  /** One or more decimal digits and nothing else. */
  predicate IsDigits(s: string)
  {
    |s| >= 1 && forall i :: 0 <= i < |s| ==> IsDigit(s[i])
  }

  function DigitValue(c: char): nat
    requires IsDigit(c)
  {
    c as int - '0' as int
  }

  /** The number a run of decimal digits denotes (0 for the empty run). */
  function DigitsValue(s: string): nat
    requires forall i :: 0 <= i < |s| ==> IsDigit(s[i])
    decreases |s|
  {
    if s == [] then 0
    else 10 * DigitsValue(s[..|s| - 1]) + DigitValue(s[|s| - 1])
  }

  /** The decimal notation of a natural number, as a device prints it: the
      digits it is made of denote that number again. */
  function NatToDigits(n: nat): (s: string)
    ensures IsDigits(s)
    ensures DigitsValue(s) == n
    decreases n
  {
    var last := ('0' as int + n % 10) as char;
    if n < 10 then [last]
    else
      var init := NatToDigits(n / 10);
      assert (init + [last])[..|init|] == init;
      init + [last]
  }

  /** Decimal digits with an optional sign in front. */
  predicate IsIntegerText(t: string)
  {
    IsDigits(t) || (|t| >= 2 && (t[0] == '-' || t[0] == '+') && IsDigits(t[1..]))
  }

  /** `parseInt(field, 10)` on an optional sign and decimal digits, with white
      space around; anything else is NaN, here `None`. Plain digits denote
      their value. */
  function ParseInt(field: string): (r: Option<int>)
    ensures r.Some? <==> IsIntegerText(Trim(field))
    ensures r.Some? ==> Trim(field) != [] && (r.value < 0 ==> Trim(field)[0] == '-')
    ensures IsDigits(Trim(field)) ==> r == Some(DigitsValue(Trim(field)) as int)
  {
    var t := Trim(field);
    if t != [] && (t[0] == '-' || t[0] == '+') then
      var digits := t[1..];
      if IsDigits(digits) then
        Some(if t[0] == '-' then -(DigitsValue(digits) as int) else DigitsValue(digits))
      else None
    else if IsDigits(t) then Some(DigitsValue(t))
    else None
  }

  /** `parseFloat(field)` on an optional sign, decimal digits and an optional
      fraction of one or more digits, with white space around; anything else
      is NaN, here `None`. Plain digits denote their value, as for
      `parseInt`. */
  function ParseFloat(field: string): (r: Option<real>)
    ensures r.Some? ==> Trim(field) != [] && (r.value < 0.0 ==> Trim(field)[0] == '-')
    ensures IsDigits(Trim(field)) ==> r == Some(DigitsValue(Trim(field)) as real)
  {
    var t := Trim(field);
    DigitsSplitAlone(t);
    var negative := t != [] && t[0] == '-';
    var unsigned := if t != [] && (t[0] == '-' || t[0] == '+') then t[1..] else t;
    match UnsignedDecimal(unsigned)
    case None => None
    case Some(v) => Some(if negative then -v else v)
  }

  /** Digits with one `.` strictly inside them: `12.5`, but not `12.` or `.5`. */
  predicate IsPointedDigits(s: string)
  {
    exists i :: 0 <= i < |s| && s[i] == '.' && IsDigits(s[..i]) && IsDigits(s[i + 1..])
  }

  /** Decimal notation with an optional sign: digits, with or without a
      fraction. */
  predicate IsDecimalText(t: string)
  {
    var unsigned := if t != [] && (t[0] == '-' || t[0] == '+') then t[1..] else t;
    IsDigits(unsigned) || IsPointedDigits(unsigned)
  }

  /** A field is a number exactly when, trimmed, it is decimal notation;
      anything else is NaN. */
  lemma ParseFloatAccepts(field: string)
    ensures ParseFloat(field).Some? <==> IsDecimalText(Trim(field))
  {
    var t := Trim(field);
    UnsignedDecimalAccepts(if t != [] && (t[0] == '-' || t[0] == '+') then t[1..] else t);
  }

  lemma UnsignedDecimalAccepts(s: string)
    ensures UnsignedDecimal(s).Some? <==> IsDigits(s) || IsPointedDigits(s)
  {
    DigitsSplitAlone(s);
    if IsPointedDigits(s) {
      PointedIsDecimal(s);
    }
    if UnsignedDecimal(s).Some? && !IsDigits(s) {
      DecimalIsPointed(s);
    }
  }

  lemma PointedIsDecimal(s: string)
    requires IsPointedDigits(s)
    ensures UnsignedDecimal(s).Some?
  {
    var i :| 0 <= i < |s| && s[i] == '.' && IsDigits(s[..i]) && IsDigits(s[i + 1..]);
    var whole, fraction := s[..i], s[i + 1..];
    PointedSplit(whole, fraction);
    AroundIndex(s, i);
  }

  lemma DecimalIsPointed(s: string)
    requires UnsignedDecimal(s).Some? && !IsDigits(s)
    ensures IsPointedDigits(s)
  {
    var parts := Split(s, '.');
    JoinSplit(s, '.');
    if |parts| == 1 {
      assert false;
    } else {
      PointedWhenTwoPieces(s);
    }
  }

  lemma AroundIndex<T>(s: seq<T>, i: int)
    requires 0 <= i < |s|
    ensures s[..i] + [s[i]] + s[i + 1..] == s
  {
  }

  lemma PointedSplit(whole: string, fraction: string)
    requires IsDigits(whole) && IsDigits(fraction)
    ensures Split(whole + ['.'] + fraction, '.') == [whole, fraction]
  {
    DigitsSplitAlone(whole);
    DigitsSplitAlone(fraction);
    SplitAfterPiece(whole, fraction, '.');
  }

  lemma PointedWhenTwoPieces(s: string)
    requires var parts := Split(s, '.'); |parts| == 2 && IsDigits(parts[0]) && IsDigits(parts[1])
    ensures IsPointedDigits(s)
  {
    var parts := Split(s, '.');
    JoinSplit(s, '.');
    assert Join(parts, '.') == parts[0] + ['.'] + parts[1];
    var i := |parts[0]|;
    assert s[..i] == parts[0] && s[i] == '.' && s[i + 1..] == parts[1];
  }

  /** The value of the digits after a decimal point: each digit is worth a
      tenth of the one before it, so the value lies in [0, 1). */
  function FractionValue(fraction: string): (r: real)
    requires forall i :: 0 <= i < |fraction| ==> IsDigit(fraction[i])
    ensures 0.0 <= r < 1.0
    decreases |fraction|
  {
    if fraction == [] then 0.0
    else (DigitValue(fraction[0]) as real + FractionValue(fraction[1..])) / 10.0
  }

  /** Digits, optionally followed by `.` and more digits, as a value. */
  function UnsignedDecimal(s: string): (r: Option<real>)
    ensures r.Some? ==> r.value >= 0.0
  {
    var parts := Split(s, '.');
    if |parts| == 1 && IsDigits(parts[0]) then
      Some(DigitsValue(parts[0]) as real)
    else if |parts| == 2 && IsDigits(parts[0]) && IsDigits(parts[1]) then
      Some(DigitsValue(parts[0]) as real + FractionValue(parts[1]))
    else None
  }

  /** The decimal notation of a natural number parses back to it, as an
      integer and as a number. */
  lemma ParseDigits(n: nat)
    ensures ParseInt(NatToDigits(n)) == Some(n)
    ensures ParseFloat(NatToDigits(n)) == Some(n as real)
  {
    var s := NatToDigits(n);
    DigitsUntrimmed(s);
    assert s[0] != '-' && s[0] != '+' by {
      assert IsDigit(s[0]);
    }
    SplitNoSeparator(s, '.');
    assert UnsignedDecimal(s) == Some(n as real);
  }

  /** A whole number as text: its decimal digits, after `-` when negative. */
  function IntToText(n: int): string
  {
    if n < 0 then ['-'] + NatToDigits(-n) else NatToDigits(n)
  }

  /** Any whole number, negative ones included, parses back to itself as an
      integer and as a number. */
  lemma ParseSigned(n: int)
    ensures ParseInt(IntToText(n)) == Some(n)
    ensures ParseFloat(IntToText(n)) == Some(n as real)
  {
    if n >= 0 {
      ParseDigits(n);
    } else {
      NegativeUntrimmed(-n);
      NegativeInt(n);
      NegativeFloat(n);
    }
  }

  lemma NegativeUntrimmed(k: nat)
    ensures var s := ['-'] + NatToDigits(k); Trim(s) == s && s[1..] == NatToDigits(k)
  {
    var s := ['-'] + NatToDigits(k);
    assert !IsSpace(s[0]) && IsDigit(s[|s| - 1]);
    TrimUntrimmed(s);
  }

  lemma NegativeInt(n: int)
    requires n < 0
    requires var s := ['-'] + NatToDigits(-n); Trim(s) == s && s[1..] == NatToDigits(-n)
    ensures var r := ParseInt(['-'] + NatToDigits(-n)); r.Some? && r.value == n
  {
  }

  lemma NegativeFloat(n: int)
    requires n < 0
    requires var s := ['-'] + NatToDigits(-n); Trim(s) == s && s[1..] == NatToDigits(-n)
    ensures var r := ParseFloat(['-'] + NatToDigits(-n)); r.Some? && r.value == n as real
  {
    DigitsSplitAlone(NatToDigits(-n));
  }

  /** Digits, `.` and more digits parse as the value of the digits before
      the point plus the fraction the digits after it denote. */
  lemma ParseFraction(whole: string, fraction: string)
    requires IsDigits(whole) && IsDigits(fraction)
    ensures ParseFloat(whole + ['.'] + fraction) == Some(DigitsValue(whole) as real + FractionValue(fraction))
  {
    var s := whole + ['.'] + fraction;
    PointedText(whole, fraction);
    UnsignedFloat(s);
    PointedDecimal(s, whole, fraction);
  }

  lemma PointedText(whole: string, fraction: string)
    requires IsDigits(whole) && IsDigits(fraction)
    ensures var s := whole + ['.'] + fraction;
      Trim(s) == s && IsDigit(s[0]) && Split(s, '.') == [whole, fraction]
  {
    var s := whole + ['.'] + fraction;
    assert IsDigit(s[0]) && IsDigit(s[|s| - 1]);
    TrimUntrimmed(s);
    DigitsSplitAlone(whole);
    DigitsSplitAlone(fraction);
    SplitAfterPiece(whole, fraction, '.');
  }

  /** Untrimmed text that starts with a digit has no sign to strip. */
  lemma UnsignedFloat(s: string)
    requires s != [] && Trim(s) == s && IsDigit(s[0])
    ensures ParseFloat(s) == UnsignedDecimal(s)
  {
  }

  lemma PointedDecimal(s: string, whole: string, fraction: string)
    requires IsDigits(whole) && IsDigits(fraction) && Split(s, '.') == [whole, fraction]
    ensures UnsignedDecimal(s) == Some(DigitsValue(whole) as real + FractionValue(fraction))
  {
  }

  /** A reading with one decimal, as a device prints it (`300.0`, `21.1`):
      whole units, a point and the tenths. */
  lemma ParseTenths(whole: nat, tenths: nat)
    requires tenths < 10
    ensures var r := ParseFloat(NatToDigits(whole) + ['.'] + NatToDigits(tenths));
      r.Some? && r.value == whole as real + tenths as real / 10.0
  {
    var w, f := NatToDigits(whole), NatToDigits(tenths);
    ParseFraction(w, f);
    TenthsValue(w, f, whole, tenths);
  }

  lemma TenthsValue(w: string, f: string, whole: nat, tenths: nat)
    requires tenths < 10 && w == NatToDigits(whole) && f == NatToDigits(tenths)
    ensures DigitsValue(w) as real + FractionValue(f) == whole as real + tenths as real / 10.0
  {
    TenthsFraction(tenths);
  }

  /** A single digit after the point is worth its value in tenths. */
  lemma TenthsFraction(tenths: nat)
    requires tenths < 10
    ensures FractionValue(NatToDigits(tenths)) == tenths as real / 10.0
  {
    var f := NatToDigits(tenths);
    assert |f| == 1 && DigitValue(f[0]) == tenths by {
      assert f[..0] == [];
    }
    OneDigitFraction(f);
  }

  /** One digit after the point denotes tenths. */
  lemma OneDigitFraction(fraction: string)
    requires |fraction| == 1 && IsDigit(fraction[0])
    ensures FractionValue(fraction) * 10.0 == DigitValue(fraction[0]) as real
  {
    assert fraction[1..] == [];
  }

  /** Digits hold no `.`, so splitting on it leaves them whole. */
  lemma DigitsSplitAlone(s: string)
    ensures IsDigits(s) ==> '.' !in s && Split(s, '.') == [s]
  {
    if IsDigits(s) {
      assert forall i :: 0 <= i < |s| ==> IsDigit(s[i]);
      SplitNoSeparator(s, '.');
    }
  }

  /** A run of digits has no white space to trim. */
  lemma DigitsUntrimmed(s: string)
    requires IsDigits(s)
    ensures Trim(s) == s
  {
    assert IsDigit(s[0]) && IsDigit(s[|s| - 1]);
    TrimUntrimmed(s);
  }

}
