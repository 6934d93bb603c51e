/**
  The string handling the studio relies on when it reads its entry widgets:
  `str.split(',')`, the ASCII whitespace that `int()` and `float()` skip,
  and the plain decimal literals (an optional sign, ASCII digits, and for
  `float()` an optional fraction) those two conversions accept.
*/
module Text {
  import opened Wrappers

  /**
    The ASCII whitespace `int()` and `float()` skip around a literal: tab,
    line feed, vertical tab, form feed, carriage return and space. The
    separators U+001C to U+001F, although `str.isspace()` holds for them,
    make both conversions fail.
  */
  predicate IsSpace(c: char) {
    ('\t' <= c <= '\r') || c == ' '
  }

  /** Drops the leading whitespace. */
  function TrimStart(s: string): (r: string)
    ensures |r| <= |s| && r == s[|s| - |r|..]
    ensures |r| > 0 ==> !IsSpace(r[0])
    ensures forall k :: 0 <= k < |s| - |r| ==> IsSpace(s[k])
    decreases |s|
  {
    if |s| > 0 && IsSpace(s[0]) then
      var r := TrimStart(s[1..]);
      assert forall k :: 1 <= k < |s| - |r| ==> s[k] == s[1..][k - 1];
      r
    else s
  }

  /** Drops the trailing whitespace. */
  function TrimEnd(s: string): (r: string)
    ensures |r| <= |s| && r == s[..|r|]
    ensures |r| > 0 ==> !IsSpace(r[|r| - 1])
    ensures forall k :: |r| <= k < |s| ==> IsSpace(s[k])
    decreases |s|
  {
    if |s| > 0 && IsSpace(s[|s| - 1]) then TrimEnd(s[..|s| - 1]) else s
  }

  /** The literal `int()` and `float()` read: `s` without its whitespace at either end. */
  function Strip(s: string): string {
    TrimEnd(TrimStart(s))
  }

  /** A string with no whitespace at either end is its own strip. */
  lemma StripUnspaced(s: string)
    requires |s| > 0 ==> !IsSpace(s[0]) && !IsSpace(s[|s| - 1])
    ensures Strip(s) == s
  {
  }

  // ---------------------------------------------------------------------------
  // Splitting on commas

  /** `s.split(',')`: the pieces between commas, empty pieces included. */
  function Split(s: string): (r: seq<string>)
    ensures |r| > 0
    ensures forall k :: 0 <= k < |r| ==> ',' !in r[k]
    decreases |s|
  {
    if |s| == 0 then [""]
    else
      var rest := Split(s[1..]);
      assert s == [s[0]] + s[1..];
      if s[0] == ',' then [""] + rest
      else [[s[0]] + rest[0]] + rest[1..]
  }

  /** A text with n commas splits into n + 1 pieces. */
  lemma {:induction false} SplitCount(s: string)
    ensures |Split(s)| == multiset(s)[','] + 1
    decreases |s|
  {
    if |s| > 0 {
      SplitCount(s[1..]);
      assert s == [s[0]] + s[1..];
      assert multiset(s) == multiset([s[0]]) + multiset(s[1..]);
    }
  }

  /** `','.join(ts)`, the inverse of `Split`. */
  function Join(ts: seq<string>): string
    requires |ts| > 0
    decreases |ts|
  {
    if |ts| == 1 then ts[0] else ts[0] + "," + Join(ts[1..])
  }

  /** Joining the pieces of a split gives back the original text. */
  lemma {:induction false} JoinSplit(s: string)
    ensures Join(Split(s)) == s
    decreases |s|
  {
    if |s| > 0 {
      JoinSplit(s[1..]);
      var rest := Split(s[1..]);
      if s[0] == ',' {
        assert Split(s) == [""] + rest;
        assert Join(Split(s)) == "" + "," + Join(rest);
      } else if |rest| == 1 {
        assert Split(s) == [[s[0]] + rest[0]];
      } else {
        assert Split(s)[1..] == rest[1..];
        assert Join(rest) == rest[0] + "," + Join(rest[1..]);
        assert Join(Split(s)) == ([s[0]] + rest[0]) + "," + Join(rest[1..]);
      }
    }
  }

  /** A piece without a comma followed by a comma starts a new piece. */
  lemma {:induction false} SplitCons(a: string, rest: string)
    requires ',' !in a
    ensures Split(a + "," + rest) == [a] + Split(rest)
    decreases |a|
  {
    if |a| == 0 {
      assert a + "," + rest == [','] + rest;
      assert (a + "," + rest)[1..] == rest;
    } else {
      SplitCons(a[1..], rest);
      var s := a + "," + rest;
      assert s[0] == a[0] && s[1..] == a[1..] + "," + rest;
      var tail := Split(s[1..]);
      assert tail == [a[1..]] + Split(rest);
      assert [a[0]] + a[1..] == a;
      assert Split(s) == [[a[0]] + tail[0]] + tail[1..];
    }
  }

  /** A piece without a comma splits into itself. */
  lemma {:induction false} SplitNoComma(a: string)
    requires ',' !in a
    ensures Split(a) == [a]
    decreases |a|
  {
    if |a| > 0 {
      SplitNoComma(a[1..]);
      assert a == [a[0]] + a[1..];
    }
  }

  /** Splitting joined comma-free pieces gives back the pieces. */
  lemma {:induction false} SplitJoin(ts: seq<string>)
    requires |ts| > 0
    requires forall k :: 0 <= k < |ts| ==> ',' !in ts[k]
    ensures Split(Join(ts)) == ts
    decreases |ts|
  {
    if |ts| == 1 {
      SplitNoComma(ts[0]);
    } else {
      SplitJoin(ts[1..]);
      SplitCons(ts[0], Join(ts[1..]));
      assert [ts[0]] + ts[1..] == ts;
    }
  }

  // ---------------------------------------------------------------------------
  // Decimal literals

  predicate IsDigit(c: char) {
    '0' <= c <= '9'
  }

  predicate AllDigits(s: string) {
    forall k :: 0 <= k < |s| ==> IsDigit(s[k])
  }

  function DigitValue(c: char): nat
    requires IsDigit(c)
  {
    c as int - '0' as int
  }

  /** The value of a string of decimal digits, most significant first. */
  function DigitsValue(s: string): nat
    requires AllDigits(s)
    decreases |s|
  {
    if |s| == 0 then 0 else 10 * DigitsValue(s[..|s| - 1]) + DigitValue(s[|s| - 1])
  }

  function Pow10(n: nat): (p: nat)
    ensures p > 0
  {
    if n == 0 then 1 else 10 * Pow10(n - 1)
  }

  /** `int(s)` for a decimal literal: an optional sign and one or more digits, whitespace around ignored. */
  function ParseInt(s: string): Option<int> {
    IntLiteral(Strip(s))
  }

  /** The value of a stripped `int()` literal. */
  function IntLiteral(t: string): Option<int> {
    if |t| > 0 && (t[0] == '+' || t[0] == '-') then
      if |t| > 1 && AllDigits(t[1..]) then
        var v: int := DigitsValue(t[1..]);
        Some(if t[0] == '-' then -v else v)
      else None
    else if |t| > 0 && AllDigits(t) then Some(DigitsValue(t))
    else None
  }

  /** The position of the first '.', or |t| when there is none. */
  function PointAt(t: string): (p: nat)
    ensures p <= |t|
    ensures forall k :: 0 <= k < p ==> t[k] != '.'
    ensures p < |t| ==> t[p] == '.'
    decreases |t|
  {
    if |t| == 0 then 0
    else if t[0] == '.' then 0
    else 1 + PointAt(t[1..])
  }

  /** An unsigned decimal: "12", "12.", ".5" or "12.5". */
  function ParseUnsigned(t: string): Option<real> {
    var p := PointAt(t);
    var whole, frac := t[..p], if p < |t| then t[p + 1..] else "";
    if AllDigits(whole) && AllDigits(frac) && |whole| + |frac| > 0 then
      Some(DigitsValue(whole) as real + DigitsValue(frac) as real / Pow10(|frac|) as real)
    else None
  }

  /** `float(s)` for a decimal literal without exponent: an optional sign and an unsigned decimal, whitespace around ignored. */
  function ParseFloat(s: string): Option<real> {
    FloatLiteral(Strip(s))
  }

  /** The value of a stripped `float()` literal. */
  function FloatLiteral(t: string): Option<real> {
    var signed := |t| > 0 && (t[0] == '+' || t[0] == '-');
    match ParseUnsigned(if signed then t[1..] else t)
    case Some(v) => Some(if signed && t[0] == '-' then -v else v)
    case None => None
  }

  /** The information separators U+001C to U+001F, which `str.isspace()` accepts but `int()` and `float()` do not skip. */
  predicate IsSeparator(c: char) {
    '\U{1C}' <= c <= '\U{1F}'
  }

  /** A separator before a literal makes both conversions fail. */
  lemma LeadingSeparatorRefused(s: string)
    requires |s| > 0 && IsSeparator(s[0])
    ensures ParseInt(s) == None && ParseFloat(s) == None
  {
    StripKeepsFirst(s);
    LiteralOpeningRefused(Strip(s));
  }

  /** A separator after a literal makes both conversions fail. */
  lemma TrailingSeparatorRefused(s: string)
    requires |s| > 0 && IsSeparator(s[|s| - 1])
    ensures ParseInt(s) == None && ParseFloat(s) == None
  {
    StripKeepsLast(s);
    LiteralClosingRefused(Strip(s));
  }

  /** Stripping keeps a first character that is not skipped. */
  lemma StripKeepsFirst(s: string)
    requires |s| > 0 && !IsSpace(s[0])
    ensures |Strip(s)| > 0 && Strip(s)[0] == s[0]
  {
    assert TrimStart(s) == s;
  }

  /** Stripping keeps a last character that is not skipped. */
  lemma StripKeepsLast(s: string)
    requires |s| > 0 && !IsSpace(s[|s| - 1])
    ensures |Strip(s)| > 0 && Strip(s)[|Strip(s)| - 1] == s[|s| - 1]
  {
    var u := TrimStart(s);
    assert |u| > 0;
    assert u[|u| - 1] == s[|s| - 1];
    assert TrimEnd(u) == u;
  }

  /** No literal opens with a separator. */
  lemma LiteralOpeningRefused(t: string)
    requires |t| > 0 && IsSeparator(t[0])
    ensures IntLiteral(t) == None && FloatLiteral(t) == None
  {
    assert !AllDigits(t) by { assert !IsDigit(t[0]); }
    var p := PointAt(t);
    assert p > 0;
    assert !AllDigits(t[..p]) by { assert t[..p][0] == t[0]; }
  }

  /** No literal closes with a separator. */
  lemma LiteralClosingRefused(t: string)
    requires |t| > 0 && IsSeparator(t[|t| - 1])
    ensures IntLiteral(t) == None && FloatLiteral(t) == None
  {
    var last := t[|t| - 1];
    assert !IsDigit(last) && last != '.';
    assert !AllDigits(t);
    var signed := t[0] == '+' || t[0] == '-';
    if signed && |t| > 1 {
      assert !AllDigits(t[1..]) by { assert t[1..][|t| - 2] == last; }
    }
    var v := if signed then t[1..] else t;
    if |v| > 0 {
      assert v[|v| - 1] == last;
      var p := PointAt(v);
      if p < |v| {
        var frac := v[p + 1..];
        assert |frac| > 0 && frac[|frac| - 1] == last;
        assert !AllDigits(frac);
      } else {
        assert v[..p][p - 1] == last;
        assert !AllDigits(v[..p]);
      }
    }
  }

  /** Whitespace `int()` and `float()` skip, such as a vertical tab, changes nothing before a literal. */
  lemma LeadingSpaceSkipped(c: char, s: string)
    requires IsSpace(c)
    ensures ParseInt([c] + s) == ParseInt(s) && ParseFloat([c] + s) == ParseFloat(s)
  {
    StripSkipsSpace(c, s);
  }

  /** Stripping drops a leading skipped character. */
  lemma StripSkipsSpace(c: char, s: string)
    requires IsSpace(c)
    ensures Strip([c] + s) == Strip(s)
  {
    assert ([c] + s)[1..] == s;
  }

  /** Every literal `int()` accepts, `float()` accepts with the same value. */
  lemma IntLiteralIsFloatLiteral(s: string)
    requires ParseInt(s).Some?
    ensures ParseFloat(s) == Some(ParseInt(s).value as real)
  {
    var t := Strip(s);
    var u := if |t| > 0 && (t[0] == '+' || t[0] == '-') then t[1..] else t;
    assert PointAt(u) == |u|;
    assert u[..|u|] == u;
  }

  // ---------------------------------------------------------------------------
  // Printing integers, to state what the parsers invert

  function DigitChar(d: nat): (c: char)
    requires d < 10
    ensures IsDigit(c) && DigitValue(c) == d
  {
    ('0' as int + d) as char
  }

  /** The decimal digits of n, without leading zeros. */
  function ShowNat(n: nat): (s: string)
    ensures |s| > 0 && AllDigits(s)
    ensures DigitsValue(s) == n
  {
    if n < 10 then [DigitChar(n)]
    else
      var s := ShowNat(n / 10) + [DigitChar(n % 10)];
      assert s[..|s| - 1] == ShowNat(n / 10);
      s
  }

  /** `str(n)` for an int. */
  function ShowInt(n: int): (s: string)
    ensures |s| > 0
    ensures ',' !in s
  {
    if n < 0 then "-" + ShowNat(-n) else ShowNat(n)
  }

  /** `int(str(n)) == n`. */
  lemma ParseShowInt(n: int)
    ensures ParseInt(ShowInt(n)) == Some(n)
  {
    var s := ShowInt(n);
    assert !IsSpace(s[0]) && !IsSpace(s[|s| - 1]);
    StripUnspaced(s);
    if n < 0 {
      assert s[1..] == ShowNat(-n);
    }
  }
}
