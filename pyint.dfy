/**
 * Python's `int(s, base)` for the two bases the line parser uses (2 and 16),
 * and `f"{n}"` for the counts and positions it writes into error messages.
 *
 * `int(s, base)` accepts more than bare digits: surrounding whitespace, one
 * leading `+` or `-`, a `0x`/`0X` (base 16) or `0b`/`0B` (base 2) prefix that
 * may be followed by one `_`, and single `_` separators between digits. All of
 * these are modelled; digits and whitespace outside ASCII are not.
 */
module PyInt {
  import opened PyStr

  datatype Option<T> = None | Some(value: T)

  /** The value of an ASCII digit or letter as a digit of a base up to 36, or -1. */
  function DigitValue(ch: char): (v: int)
    ensures -1 <= v < 36
    ensures v == -1 <==> !('0' <= ch <= '9' || 'a' <= ch <= 'z' || 'A' <= ch <= 'Z')
  {
    if '0' <= ch <= '9' then ch as int - '0' as int
    else if 'a' <= ch <= 'z' then ch as int - 'a' as int + 10
    else if 'A' <= ch <= 'Z' then ch as int - 'A' as int + 10
    else -1
  }

  predicate IsDigit(ch: char, base: nat) {
    0 <= DigitValue(ch) < base
  }

  predicate AllDigits(s: string, base: nat) {
    forall i :: 0 <= i < |s| ==> IsDigit(s[i], base)
  }

  /** The number that the digit string `ds` denotes in `base`, most significant digit first. */
  function DigitsValue(ds: string, base: nat): nat
    requires AllDigits(ds, base)
  {
    if ds == [] then 0 else DigitsValue(ds[..|ds| - 1], base) * base + DigitValue(ds[|ds| - 1])
  }

  /** Digits of `base` and `_` separators only. */
  predicate DigitsOrSeparators(b: string, base: nat) {
    forall i :: 0 <= i < |b| ==> IsDigit(b[i], base) || b[i] == '_'
  }

  /**
   * The number that the digits of `b` denote in `base`, most significant first,
   * with every `_` skipped: what `int` makes of an accepted digit body.
   */
  function GroupedValue(b: string, base: nat): nat
    requires DigitsOrSeparators(b, base)
  {
    if b == [] then 0
    else if b[|b| - 1] == '_' then GroupedValue(b[..|b| - 1], base)
    else GroupedValue(b[..|b| - 1], base) * base + DigitValue(b[|b| - 1])
  }

  /** Skipping the separators while reading is reading the digits left by deleting them. */
  lemma {:induction false} GroupedValueDeletesSeparators(b: string, base: nat)
    requires DigitsOrSeparators(b, base)
    ensures AllDigits(RemoveChar(b, '_'), base)
    ensures GroupedValue(b, base) == DigitsValue(RemoveChar(b, '_'), base)
  {
    RemoveCharKeeps(b, '_');
    if b != [] {
      var init := b[..|b| - 1];
      GroupedValueDeletesSeparators(init, base);
      var r := RemoveChar(init, '_');
      if b[|b| - 1] != '_' {
        var last := b[|b| - 1];
        assert RemoveChar(b, '_') == r + [last];
        assert (r + [last])[..|r + [last]| - 1] == r;
      }
    }
  }

  /** Without separators, the grouped value is the plain digit value. */
  lemma {:induction false} PlainGroupedValue(ds: string, base: nat)
    requires AllDigits(ds, base)
    ensures DigitsOrSeparators(ds, base) && GroupedValue(ds, base) == DigitsValue(ds, base)
  {
    if ds != [] {
      PlainGroupedValue(ds[..|ds| - 1], base);
      assert IsDigit(ds[|ds| - 1], base);
    }
  }

  /** Digits of `base`, non-empty, with single underscores allowed only between two digits. */
  predicate IsGroupedDigits(b: string, base: nat) {
    && b != []
    && IsDigit(b[0], base)
    && IsDigit(b[|b| - 1], base)
    && DigitsOrSeparators(b, base)
    && (forall i :: 0 < i < |b| && b[i] == '_' ==> b[i - 1] != '_')
  }

  /** The letter of the base prefix Python accepts for `base`: `0x`/`0X` for 16, `0b`/`0B` for 2. */
  predicate IsPrefixLetter(ch: char, base: nat) {
    (base == 16 && (ch == 'x' || ch == 'X')) || (base == 2 && (ch == 'b' || ch == 'B'))
  }

  /** `u` without a leading base prefix and the one underscore Python allows right after it. */
  function DropBasePrefix(u: string, base: nat): (body: string)
    ensures |body| <= |u|
    ensures |body| < |u| ==> |u| >= 2 && u[0] == '0' && IsPrefixLetter(u[1], base)
    ensures |body| + 3 <= |u| ==> |body| + 3 == |u| && u[2] == '_'
  {
    if |u| >= 2 && u[0] == '0' && IsPrefixLetter(u[1], base) then
      if |u| >= 3 && u[2] == '_' then u[3..] else u[2..]
    else u
  }

  /** A character that can occur in a string `int(s, base)` accepts. */
  predicate IsLiteralChar(ch: char, base: nat) {
    IsWhitespace(ch) || IsDigit(ch, base) || ch == '_' || ch == '+' || ch == '-' || IsPrefixLetter(ch, base)
  }

  /** `t` without one leading sign character. */
  function Unsigned(t: string): string
  {
    if t != [] && (t[0] == '+' || t[0] == '-') then t[1..] else t
  }

  /** The digit body that `int(s, base)` reads: `s` stripped, without its sign and its base prefix. */
  function LiteralBody(s: string, base: nat): string {
    DropBasePrefix(Unsigned(Strip(s)), base)
  }

  /** The stripped literal starts with a minus sign. */
  predicate IsNegativeLiteral(s: string) {
    var t := Strip(s);
    t != [] && t[0] == '-'
  }

  /**
   * `int(s, base)` for base 2 or 16: `Some(value)`, or `None` where Python raises
   * ValueError.
   */
  function IntOfString(s: string, base: nat): Option<int>
    requires base == 2 || base == 16
  {
    SignedValue(LiteralBody(s, base), IsNegativeLiteral(s), base)
  }

  /** The value of a digit body, negated for a minus sign, or `None` when the body is not grouped digits. */
  function SignedValue(body: string, negative: bool, base: nat): Option<int> {
    if IsGroupedDigits(body, base) then
      var magnitude: int := GroupedValue(body, base);
      Some(if negative then -magnitude else magnitude)
    else
      None
  }

  /** A non-empty string of plain digits is accepted and denotes what it spells. */
  lemma PlainDigitsAccepted(s: string, base: nat)
    requires base == 2 || base == 16
    requires s != [] && AllDigits(s, base)
    ensures IntOfString(s, base) == Some(DigitsValue(s, base) as int)
  {
    PlainDigitsBody(s, base);
    DigitsAreGrouped(s, base);
    AcceptedBody(s, false, base);
  }

  /** A digit body without separators denotes its digits' value, negated when it is negative. */
  lemma AcceptedBody(body: string, negative: bool, base: nat)
    requires IsGroupedDigits(body, base) && AllDigits(body, base)
    ensures SignedValue(body, negative, base) == Some(if negative then -(DigitsValue(body, base) as int) else DigitsValue(body, base) as int)
  {
    PlainGroupedValue(body, base);
  }

  /** Plain digits are their own digit body and are not negative. */
  lemma PlainDigitsBody(s: string, base: nat)
    requires base == 2 || base == 16
    requires s != [] && AllDigits(s, base)
    ensures LiteralBody(s, base) == s && !IsNegativeLiteral(s)
  {
    assert IsDigit(s[0], base);
    UnchangedBody(s, base) by {
      DigitsHaveNoWhitespace(s, base);
      DigitsHaveNoPrefix(s, base);
    }
  }

  /** A string that strip, the sign and the prefix all leave alone is its own digit body. */
  lemma UnchangedBody(s: string, base: nat)
    requires s != [] && s[0] != '+' && s[0] != '-'
    requires Strip(s) == s && DropBasePrefix(s, base) == s
    ensures LiteralBody(s, base) == s && !IsNegativeLiteral(s)
  {
    assert Unsigned(s) == s;
  }

  /**
   * Anything `int(s, base)` accepts is built only from whitespace, digits, `_`,
   * a sign and the prefix letter.
   */
  lemma LiteralChars(s: string, base: nat)
    requires base == 2 || base == 16
    requires IntOfString(s, base).Some?
    ensures forall i :: 0 <= i < |s| ==> IsLiteralChar(s[i], base)
  {
    var t := Strip(s);
    var u := Unsigned(t);
    assert LiteralOnly(DropBasePrefix(u, base), base);
    PrefixChars(u, base);
    SignChars(t, base);
    StripChars(s, base);
  }

  /** Every character of `s` is a literal character. */
  predicate LiteralOnly(s: string, base: nat) {
    forall i :: 0 <= i < |s| ==> IsLiteralChar(s[i], base)
  }

  /** The base prefix is made of literal characters. */
  lemma PrefixChars(u: string, base: nat)
    requires LiteralOnly(DropBasePrefix(u, base), base)
    ensures LiteralOnly(u, base)
  {
    var body := DropBasePrefix(u, base);
    if body != u {
      var k := |u| - |body|;
      assert body == u[k..];
      forall i | 0 <= i < |u| ensures IsLiteralChar(u[i], base) {
        if i >= k {
          assert u[i] == body[i - k];
        }
      }
    }
  }

  /** A sign is a literal character. */
  lemma SignChars(t: string, base: nat)
    requires LiteralOnly(Unsigned(t), base)
    ensures LiteralOnly(t, base)
  {
    var u := Unsigned(t);
    forall i | 0 <= i < |t| ensures IsLiteralChar(t[i], base) {
      if u != t && i > 0 {
        assert t[i] == u[i - 1];
      }
    }
  }

  /** Stripping removes only whitespace, which is literal. */
  lemma StripChars(s: string, base: nat)
    requires LiteralOnly(Strip(s), base)
    ensures LiteralOnly(s, base)
  {
    var t := Strip(s);
    StripKeeps(s);
    forall i | 0 <= i < |s| ensures IsLiteralChar(s[i], base) {
      if !IsWhitespace(s[i]) {
        assert s[i] in t;
      }
    }
  }

  lemma DigitsHaveNoWhitespace(s: string, base: nat)
    requires base == 2 || base == 16
    requires AllDigits(s, base)
    ensures Strip(s) == s
  {
    assert forall i :: 0 <= i < |s| ==> !IsWhitespace(s[i]);
  }

  lemma DigitsHaveNoPrefix(s: string, base: nat)
    requires base == 2 || base == 16
    requires AllDigits(s, base)
    ensures DropBasePrefix(s, base) == s
  {
    if |s| >= 2 {
      assert IsDigit(s[1], base);
    }
  }

  lemma DigitsAreGrouped(s: string, base: nat)
    requires base == 2 || base == 16
    requires s != [] && AllDigits(s, base)
    ensures IsGroupedDigits(s, base)
  {
  }

  /** The decimal digit character for `d`. */
  function DigitChar(d: nat): (ch: char)
    requires d < 10
    ensures IsDigit(ch, 10) && DigitValue(ch) == d
  {
    ('0' as int + d) as char
  }

  /** `f"{n}"`: the decimal numeral of `n`, without leading zeros. */
  function FormatNat(n: nat): (s: string)
    ensures s != [] && AllDigits(s, 10)
    ensures |s| > 1 ==> s[0] != '0'
  {
    if n < 10 then [DigitChar(n)] else FormatNat(n / 10) + [DigitChar(n % 10)]
  }

  /** Reading the numeral `f"{n}"` back gives `n`. */
  lemma {:induction false} FormatNatRoundTrip(n: nat)
    ensures DigitsValue(FormatNat(n), 10) == n
  {
    var s := FormatNat(n);
    if n >= 10 {
      assert s[..|s| - 1] == FormatNat(n / 10);
      FormatNatRoundTrip(n / 10);
    } else {
      assert s[..|s| - 1] == [];
    }
  }

  /** A base prefix in front of plain hex digits is accepted and ignored. */
  lemma HexPrefixAccepted(ds: string)
    requires ds != [] && AllDigits(ds, 16)
    ensures IntOfString("0x" + ds, 16) == Some(DigitsValue(ds, 16) as int)
  {
    HexPrefixBody(ds);
    DigitsAreGrouped(ds, 16);
    AcceptedBody(ds, false, 16);
  }

  /** The digit body of `0x` followed by hex digits is those digits, and the literal is not negative. */
  lemma HexPrefixBody(ds: string)
    requires ds != [] && AllDigits(ds, 16)
    ensures LiteralBody("0x" + ds, 16) == ds && !IsNegativeLiteral("0x" + ds)
  {
    var s := "0x" + ds;
    forall i | 0 <= i < |s| ensures !IsWhitespace(s[i]) {
      if i >= 2 { assert s[i] == ds[i - 2]; }
    }
    assert Strip(s) == s;
    assert s[2] == ds[0] && IsDigit(ds[0], 16);
    assert s[2..] == ds;
    assert Unsigned(s) == s;
  }

  /** A leading minus sign is accepted and negates the value. */
  lemma NegativeAccepted(ds: string, base: nat)
    requires base == 2 || base == 16
    requires ds != [] && AllDigits(ds, base)
    ensures IntOfString("-" + ds, base) == Some(-(DigitsValue(ds, base) as int))
  {
    NegativeBody(ds, base);
    DigitsAreGrouped(ds, base);
    AcceptedBody(ds, true, base);
  }

  /** The digit body of `-ds` is `ds`, and the literal is negative. */
  lemma NegativeBody(ds: string, base: nat)
    requires base == 2 || base == 16
    requires ds != [] && AllDigits(ds, base)
    ensures LiteralBody("-" + ds, base) == ds && IsNegativeLiteral("-" + ds)
  {
    var s := "-" + ds;
    DigitsHaveNoPrefix(ds, base);
    forall i | 0 <= i < |s| ensures !IsWhitespace(s[i]) {
      if i >= 1 { assert s[i] == ds[i - 1]; }
    }
    assert Strip(s) == s;
    assert s[0] == '-' && s[1..] == ds;
    assert Unsigned(s) == ds;
  }
}
