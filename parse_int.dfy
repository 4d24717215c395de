/**
 * JavaScript's `parseInt(s)` with no radix argument, as the new-bill form
 * applies it to the amount and percentage fields: leading white space is
 * skipped, one sign is taken, a "0x"/"0X" prefix switches to base 16, and the
 * longest run of digits that follows is read; no digit at all gives NaN,
 * written here as None.
 */
module JsParseInt {
  import opened Wrappers

  /** The characters `parseInt` skips at the front: white space and line terminators. */
  predicate IsStrWhiteSpace(c: char) {
    var u := c as int;
    u == 0x09 || u == 0x0A || u == 0x0B || u == 0x0C || u == 0x0D || u == 0x20 || u == 0xA0 ||
    u == 0x1680 || (0x2000 <= u <= 0x200A) || u == 0x2028 || u == 0x2029 || u == 0x202F ||
    u == 0x205F || u == 0x3000 || u == 0xFEFF
  }

  predicate IsDigit(c: char, radix: nat) {
    if radix == 16 then '0' <= c <= '9' || 'a' <= c <= 'f' || 'A' <= c <= 'F'
    else '0' <= c <= '9'
  }

  function DigitOf(c: char): nat {
    if '0' <= c <= '9' then c as int - '0' as int
    else if 'a' <= c <= 'f' then c as int - 'a' as int + 10
    else if 'A' <= c <= 'F' then c as int - 'A' as int + 10
    else 0
  }

  /** `s` without its leading white space. */
  function TrimStart(s: string): string {
    if s != [] && IsStrWhiteSpace(s[0]) then TrimStart(s[1..]) else s
  }

  /** `TrimStart` removes exactly the white space at the front: a suffix whose first character is not white space. */
  lemma {:induction false} TrimStartRemovesLeadingSpace(s: string)
    ensures var r := TrimStart(s);
      |r| <= |s| && r == s[|s| - |r|..] &&
      (forall i :: 0 <= i < |s| - |r| ==> IsStrWhiteSpace(s[i])) &&
      (r == [] || !IsStrWhiteSpace(r[0]))
  {
    if s != [] && IsStrWhiteSpace(s[0]) {
      var r := TrimStart(s[1..]);
      TrimStartRemovesLeadingSpace(s[1..]);
      assert TrimStart(s) == r;
      assert forall i :: 1 <= i < |s| - |r| ==> s[i] == s[1..][i - 1];
    }
  }

  /** The longest prefix of `s` made of digits of the radix. */
  function DigitPrefix(s: string, radix: nat): string {
    if s != [] && IsDigit(s[0], radix) then [s[0]] + DigitPrefix(s[1..], radix) else []
  }

  /** `DigitPrefix` is the longest prefix made of digits. */
  lemma {:induction false} DigitPrefixIsLongest(s: string, radix: nat)
    ensures var r := DigitPrefix(s, radix);
      |r| <= |s| && r == s[..|r|] &&
      (forall i :: 0 <= i < |r| ==> IsDigit(r[i], radix)) &&
      (|r| == |s| || !IsDigit(s[|r|], radix))
  {
    if s != [] && IsDigit(s[0], radix) {
      DigitPrefixIsLongest(s[1..], radix);
    }
  }

  /** The value of a digit string, read from the most significant digit. */
  function Value(digits: string, radix: nat): nat {
    if digits == [] then 0
    else Value(digits[..|digits| - 1], radix) * radix + DigitOf(digits[|digits| - 1])
  }

  /** The value of the digits at the front of `s`, or None when there are none. */
  function ReadDigits(s: string, radix: nat): Option<nat> {
    var digits := DigitPrefix(s, radix);
    if digits == [] then None else Some(Value(digits, radix))
  }

  /** What follows the sign: hexadecimal after "0x" or "0X", decimal otherwise. */
  function ParseUnsigned(body: string): Option<nat> {
    if |body| >= 2 && body[0] == '0' && (body[1] == 'x' || body[1] == 'X') then ReadDigits(body[2..], 16)
    else ReadDigits(body, 10)
  }

  function Negate(v: Option<nat>): Option<int> {
    match v
    case None => None
    case Some(n) => Some(-(n as int))
  }

  /** What follows the white space: an optional sign, then the number. */
  function ParseSigned(t: string): Option<int> {
    if t == [] then None
    else if t[0] == '-' then Negate(ParseUnsigned(t[1..]))
    else if t[0] == '+' then ParseUnsigned(t[1..])
    else ParseUnsigned(t)
  }

  /**
   * A number is read only when the first character after the white space is
   * a digit or a sign; a blank input is NaN.
   */
  function ParseInt(s: string): (r: Option<int>)
    ensures TrimStart(s) == [] ==> r == None
    ensures r.Some? ==> var t := TrimStart(s); t != [] && (IsDigit(t[0], 10) || t[0] == '-' || t[0] == '+')
  {
    ParseSigned(TrimStart(s))
  }

  // A decimal printer: `ParseIntOfDecimal` proves `ParseInt` reads back what it prints.

  function DigitChar(d: nat): char
    requires d < 10
  {
    ('0' as int + d) as char
  }

  function DecimalDigits(n: nat): (r: string)
    ensures r != []
    ensures forall i :: 0 <= i < |r| ==> IsDigit(r[i], 10)
    ensures r[0] == '0' ==> n == 0 && r == "0"
  {
    if n < 10 then [DigitChar(n)] else DecimalDigits(n / 10) + [DigitChar(n % 10)]
  }

  /** `n` in decimal, with a leading '-' when negative. */
  function Decimal(n: int): string {
    if n < 0 then "-" + DecimalDigits(-n) else DecimalDigits(n)
  }

  lemma {:induction false} ValueOfDecimalDigits(n: nat)
    ensures Value(DecimalDigits(n), 10) == n
  {
    if n >= 10 {
      var ds := DecimalDigits(n);
      assert ds[..|ds| - 1] == DecimalDigits(n / 10);
      ValueOfDecimalDigits(n / 10);
    }
  }

  lemma {:induction false} DigitPrefixOfDigits(digits: string, rest: string, radix: nat)
    requires forall i :: 0 <= i < |digits| ==> IsDigit(digits[i], radix)
    requires rest == [] || !IsDigit(rest[0], radix)
    ensures DigitPrefix(digits + rest, radix) == digits
  {
    if digits != [] {
      assert (digits + rest)[1..] == digits[1..] + rest;
      DigitPrefixOfDigits(digits[1..], rest, radix);
    }
  }

  lemma ParseUnsignedOfDigits(m: nat, rest: string)
    requires rest == [] || (!IsDigit(rest[0], 10) && (m != 0 || (rest[0] != 'x' && rest[0] != 'X')))
    ensures ParseUnsigned(DecimalDigits(m) + rest) == Some(m)
  {
    var ds := DecimalDigits(m);
    var body := ds + rest;
    assert !(|body| >= 2 && body[0] == '0' && (body[1] == 'x' || body[1] == 'X')) by {
      if |body| >= 2 && body[0] == '0' {
        assert ds == "0";
        assert body[1] == rest[0];
      }
    }
    DigitPrefixOfDigits(ds, rest, 10);
    ValueOfDecimalDigits(m);
  }

  lemma TrimStartAtNonSpace(s: string)
    requires s != [] && !IsStrWhiteSpace(s[0])
    ensures TrimStart(s) == s
  {
  }

  lemma ReadBackNonNegative(n: int, rest: string)
    requires n >= 0
    requires rest == [] || (!IsDigit(rest[0], 10) && (n != 0 || (rest[0] != 'x' && rest[0] != 'X')))
    ensures ParseInt(Decimal(n) + rest) == Some(n)
  {
    ParseUnsignedOfDigits(n, rest);
    var s := Decimal(n) + rest;
    assert s == DecimalDigits(n) + rest;
    TrimStartAtNonSpace(s);
  }

  lemma NegativeSign(s: string)
    requires s != [] && s[0] == '-'
    ensures ParseInt(s) == Negate(ParseUnsigned(s[1..]))
  {
  }

  lemma ReadBackNegative(s: string, m: nat)
    requires s != [] && s[0] == '-' && ParseUnsigned(s[1..]) == Some(m)
    ensures ParseInt(s) == Some(-(m as int))
  {
  }

  lemma NegativeDecimalShape(n: int, rest: string)
    requires n < 0
    ensures var s := Decimal(n) + rest; s != [] && s[0] == '-' && s[1..] == DecimalDigits(-n) + rest
  {
    var s := Decimal(n) + rest;
    assert s == "-" + (DecimalDigits(-n) + rest);
  }

  lemma ReadBackNegativeDecimal(n: int, rest: string)
    requires n < 0 && (rest == [] || !IsDigit(rest[0], 10))
    ensures ParseInt(Decimal(n) + rest) == Some(n)
  {
    var s := Decimal(n) + rest;
    NegativeDecimalShape(n, rest);
    ParseUnsignedOfDigits(-n, rest);
    ReadBackNegative(s, -n);
  }

  /**
   * Reading back a printed integer gives it again, whatever follows it, so
   * long as what follows neither continues the digits nor turns a lone "0"
   * into a hexadecimal prefix.
   */
  lemma {:induction false} ParseIntOfDecimal(n: int, rest: string)
    requires rest == [] || (!IsDigit(rest[0], 10) && (n != 0 || (rest[0] != 'x' && rest[0] != 'X')))
    ensures ParseInt(Decimal(n) + rest) == Some(n)
  {
    if n < 0 {
      ReadBackNegativeDecimal(n, rest);
    } else {
      ReadBackNonNegative(n, rest);
    }
  }

  lemma {:induction false} TrimStartSkipsWhiteSpace(ws: string, s: string)
    requires forall i :: 0 <= i < |ws| ==> IsStrWhiteSpace(ws[i])
    ensures TrimStart(ws + s) == TrimStart(s)
  {
    if ws != [] {
      var w := ws + s;
      assert w[0] == ws[0] && w != [];
      assert w[1..] == ws[1..] + s;
      TrimStartSkipsWhiteSpace(ws[1..], s);
      assert TrimStart(w) == TrimStart(w[1..]);
    } else {
      assert ws + s == s;
    }
  }

  /** Leading white space never changes what `parseInt` reads. */
  lemma ParseIntSkipsWhiteSpace(ws: string, s: string)
    requires forall i :: 0 <= i < |ws| ==> IsStrWhiteSpace(ws[i])
    ensures ParseInt(ws + s) == ParseInt(s)
  {
    TrimStartSkipsWhiteSpace(ws, s);
  }

  /** Inputs with no digit to read give NaN. */
  lemma NaNExamples()
    ensures ParseInt("") == None && ParseInt("abc") == None && ParseInt("-") == None
  {
    TrimStartAtNonSpace("abc");
    assert DigitPrefix("abc", 10) == [];
    NegativeSign("-");
    assert "-"[1..] == [];
  }

  /** Hexadecimal inputs: a bare prefix reads nothing, a signed one reads its digits. */
  lemma HexExamples()
    ensures ParseInt("0x") == None && ParseInt("-0x1A") == Some(-26)
  {
    assert ParseInt("0x") == None by {
      TrimStartAtNonSpace("0x");
      assert "0x"[2..] == [];
    }
    NegativeSign("-0x1A");
    assert "-0x1A"[1..] == "0x1A";
    assert ParseUnsigned("0x1A") == Some(26) by {
      assert "0x1A"[2..] == "1A";
      assert DigitPrefix("1A", 16) == "1A";
      assert Value("1A", 16) == 26 by {
        assert "1A"[..1] == "1";
      }
    }
  }
}
