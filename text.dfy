/** The string operations the dashboard relies on, over ASCII: `trim`,
    `toLowerCase`, `includes`, and decimal digits (zero-padded and plain). */
module Text {

  predicate IsDigit(c: char)
  {
    '0' <= c <= '9'
  }

  predicate AllDigits(s: string)
  {
    forall i :: 0 <= i < |s| ==> IsDigit(s[i])
  }

  function DigitValue(c: char): nat
    requires IsDigit(c)
  {
    c as int - '0' as int
  }

  function DigitChar(n: nat): (c: char)
    requires n < 10
    ensures IsDigit(c) && DigitValue(c) == n
  {
    ('0' as int + n) as char
  }

  function Pow10(w: nat): (p: nat)
    ensures p >= 1
  {
    if w == 0 then 1 else 10 * Pow10(w - 1)
  }

  /** `n` written with exactly `w` decimal digits, zero-padded on the left
      (`String(n).padStart(w, '0')` when n < 10^w). */
  function Pad(n: nat, w: nat): (r: string)
    ensures |r| == w && AllDigits(r)
  {
    if w == 0 then "" else Pad(n / 10, w - 1) + [DigitChar(n % 10)]
  }

  /** `String(n)` for a natural number: shortest decimal form, no sign. */
  function Decimal(n: nat): (r: string)
    ensures r != "" && AllDigits(r)
  {
    if n < 10 then [DigitChar(n)] else Decimal(n / 10) + [DigitChar(n % 10)]
  }

  /** The number a string of decimal digits denotes. */
  function ParseDigits(s: string): nat
    requires AllDigits(s)
  {
    if s == "" then 0 else ParseDigits(s[..|s| - 1]) * 10 + DigitValue(s[|s| - 1])
  }

  /** Reading back a padded number gives the number. */
  lemma {:induction false} ParsePad(n: nat, w: nat)
    requires n < Pow10(w)
    ensures ParseDigits(Pad(n, w)) == n
  {
    if w > 0 {
      var s := Pad(n, w);
      assert s[..|s| - 1] == Pad(n / 10, w - 1);
      ParsePad(n / 10, w - 1);
    }
  }

  /** Every digit string is the padded form of the number it denotes. */
  lemma {:induction false} PadParse(s: string)
    requires AllDigits(s)
    ensures ParseDigits(s) < Pow10(|s|)
    ensures Pad(ParseDigits(s), |s|) == s
  {
    if s != "" {
      var p, c := s[..|s| - 1], s[|s| - 1];
      assert AllDigits(p);
      PadParse(p);
      var n := ParseDigits(s);
      assert n == ParseDigits(p) * 10 + DigitValue(c);
      assert n / 10 == ParseDigits(p) && n % 10 == DigitValue(c);
      assert DigitChar(DigitValue(c)) == c;
      assert s == p + [c];
    }
  }

  /** Reading back the decimal form of a number gives the number. */
  lemma {:induction false} ParseDecimal(n: nat)
    ensures ParseDigits(Decimal(n)) == n
  {
    if n >= 10 {
      var s := Decimal(n);
      assert s[..|s| - 1] == Decimal(n / 10);
      ParseDecimal(n / 10);
    }
  }

  /** The number of decimal digits `s` starts with. */
  function LeadingDigits(s: string): (n: nat)
    ensures n <= |s|
  {
    if s != "" && IsDigit(s[0]) then 1 + LeadingDigits(s[1..]) else 0
  }

  /** Digits followed by a non-digit: the leading digits are exactly the digits. */
  lemma {:induction false} LeadingDigitsOf(a: string, x: string)
    requires AllDigits(a) && x != "" && !IsDigit(x[0])
    ensures LeadingDigits(a + x) == |a|
  {
    if a == "" {
      assert a + x == x;
    } else {
      assert (a + x)[1..] == a[1..] + x;
      LeadingDigitsOf(a[1..], x);
    }
  }

  /** The ASCII characters JavaScript's `trim` removes: space, tab, line feed,
      vertical tab, form feed, carriage return. */
  predicate IsWhitespace(c: char)
  {
    c == ' ' || '\t' <= c <= '\r'
  }

  predicate IsBlank(s: string)
  {
    forall i :: 0 <= i < |s| ==> IsWhitespace(s[i])
  }

  /** `String.prototype.trim`: strips whitespace from both ends. The result is
      empty exactly when the input is blank, and otherwise neither starts nor
      ends with whitespace. */
  function Trim(s: string): (r: string)
    ensures |r| <= |s|
    ensures r == "" <==> IsBlank(s)
    ensures r != "" ==> !IsWhitespace(r[0]) && !IsWhitespace(r[|r| - 1])
    decreases |s|
  {
    if s != "" && IsWhitespace(s[0]) then
      assert forall i :: 1 <= i < |s| ==> s[i] == s[1..][i - 1];
      Trim(s[1..])
    else if s != "" && IsWhitespace(s[|s| - 1]) then
      assert forall i :: 0 <= i < |s| - 1 ==> s[i] == s[..|s| - 1][i];
      Trim(s[..|s| - 1])
    else
      s
  }

  /** `r` sits in `s` at offset `i`, with only whitespace before and after it. */
  predicate TrimmedAt(s: string, r: string, i: int)
  {
    0 <= i <= |s| - |r| && r == s[i..i + |r|] && IsBlank(s[..i]) && IsBlank(s[i + |r|..])
  }

  /** Putting whitespace in front of `t` keeps the margins. */
  lemma TrimmedAtCons(s: string, r: string, i: int)
    requires s != "" && IsWhitespace(s[0]) && TrimmedAt(s[1..], r, i)
    ensures TrimmedAt(s, r, i + 1)
  {
    var t := s[1..];
    assert r == s[i + 1..i + 1 + |r|];
    assert s[i + 1 + |r|..] == t[i + |r|..];
    forall k | 0 <= k < i + 1
      ensures IsWhitespace(s[k])
    {
      if k > 0 {
        assert s[k] == t[..i][k - 1];
      }
    }
  }

  /** Putting whitespace after `t` keeps the margins. */
  lemma TrimmedAtSnoc(s: string, r: string, i: int)
    requires s != "" && IsWhitespace(s[|s| - 1]) && TrimmedAt(s[..|s| - 1], r, i)
    ensures TrimmedAt(s, r, i)
  {
    var t := s[..|s| - 1];
    assert r == s[i..i + |r|];
    assert s[..i] == t[..i];
    forall k | i + |r| <= k < |s|
      ensures IsWhitespace(s[k])
    {
      if k < |s| - 1 {
        assert s[k] == t[i + |r|..][k - i - |r|];
      }
    }
  }

  /** `trim` removes only whitespace, and only at the ends: the result is a
      piece of the input with blank margins on either side. */
  lemma {:induction false} TrimMargins(s: string)
    ensures exists i :: TrimmedAt(s, Trim(s), i)
    decreases |s|
  {
    var r := Trim(s);
    if s != "" && IsWhitespace(s[0]) {
      TrimMargins(s[1..]);
      var i :| TrimmedAt(s[1..], r, i);
      TrimmedAtCons(s, r, i);
    } else if s != "" && IsWhitespace(s[|s| - 1]) {
      TrimMargins(s[..|s| - 1]);
      var i :| TrimmedAt(s[..|s| - 1], r, i);
      TrimmedAtSnoc(s, r, i);
    } else {
      assert TrimmedAt(s, r, 0);
    }
  }

  function LowerChar(c: char): char
  {
    if 'A' <= c <= 'Z' then (c as int + 32) as char else c
  }

  /** `String.prototype.toLowerCase` over ASCII letters. */
  function Lower(s: string): (r: string)
    ensures |r| == |s|
    ensures forall i :: 0 <= i < |s| ==> r[i] == LowerChar(s[i])
  {
    if s == "" then "" else [LowerChar(s[0])] + Lower(s[1..])
  }

  predicate StartsWith(s: string, p: string)
  {
    |p| <= |s| && s[..|p|] == p
  }

  /** `String.prototype.includes`. */
  predicate Contains(s: string, t: string)
    decreases |s|
  {
    StartsWith(s, t) || (s != "" && Contains(s[1..], t))
  }

  /** `includes` holds exactly when `t` occurs at some position of `s`. */
  lemma {:induction false} ContainsAt(s: string, t: string)
    ensures Contains(s, t) <==> exists i :: 0 <= i <= |s| && StartsWith(s[i..], t)
  {
    if StartsWith(s, t) {
      assert s[0..] == s;
    } else if s == "" {
    } else {
      ContainsAt(s[1..], t);
      if Contains(s, t) {
        var i :| 0 <= i <= |s| - 1 && StartsWith(s[1..][i..], t);
        assert s[1..][i..] == s[i + 1..];
      } else {
        forall i | 0 <= i <= |s|
          ensures !StartsWith(s[i..], t)
        {
          if i > 0 {
            assert s[i..] == s[1..][i - 1..];
          } else {
            assert s[i..] == s;
          }
        }
      }
    }
  }

  /** The empty string is included in every string, so an empty search term matches everything. */
  lemma ContainsEmpty(s: string)
    ensures Contains(s, "")
  {
    assert StartsWith(s, "");
  }
}
