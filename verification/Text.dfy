/** Strings as the source uses them: byte-wise order, substring tests, and decimal numerals.

    A string is the sequence of its UTF-8 code units, one `char` below 256 each, wherever
    the source orders strings, slices them or counts their length. Where it trims white
    space (the token list, the chat line) a `char` is a Unicode scalar value. */
module Text {
  import opened Machine

  /** Lexicographic order, as `str::cmp` computes it. */
  predicate StrLe(a: string, b: string) {
    a == "" || (b != "" && (a[0] < b[0] || (a[0] == b[0] && StrLe(a[1..], b[1..]))))
  }

  predicate StrLt(a: string, b: string) {
    StrLe(a, b) && a != b
  }

  lemma {:induction false} StrLeTotal(a: string, b: string)
    ensures StrLe(a, b) || StrLe(b, a)
  {
    if a != "" && b != "" {
      StrLeTotal(a[1..], b[1..]);
    }
  }

  lemma {:induction false} StrLeAntisymmetric(a: string, b: string)
    requires StrLe(a, b) && StrLe(b, a)
    ensures a == b
  {
    if a != "" && b != "" {
      StrLeAntisymmetric(a[1..], b[1..]);
      assert a == [a[0]] + a[1..] && b == [b[0]] + b[1..];
    }
  }

  lemma {:induction false} StrLeTransitive(a: string, b: string, c: string)
    requires StrLe(a, b) && StrLe(b, c)
    ensures StrLe(a, c)
  {
    if a != "" && b != "" && c != "" && a[0] == b[0] == c[0] {
      StrLeTransitive(a[1..], b[1..], c[1..]);
    }
  }

  predicate StartsWith(s: string, prefix: string) {
    prefix <= s
  }

  predicate EndsWith(s: string, suffix: string) {
    |suffix| <= |s| && s[|s| - |suffix|..] == suffix
  }

  predicate Contains(s: string, needle: string) {
    needle <= s || (s != "" && Contains(s[1..], needle))
  }

  predicate IsDigit(c: char) {
    '0' <= c <= '9'
  }

  function DigitValue(c: char): (d: nat)
    requires IsDigit(c)
    ensures d < 10
  {
    (c - '0') as int
  }

  function DigitChar(d: nat): (c: char)
    requires d < 10
    ensures IsDigit(c) && DigitValue(c) == d
  {
    '0' + d as char
  }

  /** Decimal numeral without leading zeros, as `{}` prints an unsigned integer. */
  function Decimal(n: nat): (s: string)
    ensures s != ""
    ensures forall c :: c in s ==> IsDigit(c)
  {
    if n < 10 then [DigitChar(n)] else Decimal(n / 10) + [DigitChar(n % 10)]
  }

  /** Value of a string of digits, `None` if some character is not a digit. */
  function Numeral(s: string): Option<nat> {
    if s == "" then Some(0)
    else
      var c := s[|s| - 1];
      match Numeral(s[..|s| - 1])
      case None => None
      case Some(v) => if IsDigit(c) then Some(10 * v + DigitValue(c)) else None
  }

  /** `str::parse::<u32>`: an optional `+`, at least one digit, and a value below 2^32. */
  function ParseU32(s: string): Option<U32> {
    var digits := if s != "" && s[0] == '+' then s[1..] else s;
    if digits == "" then None
    else match Numeral(digits)
      case None => None
      case Some(v) => if v < TWO_32 then Some(v) else None
  }

  /** `str::parse::<i32>`: an optional sign, at least one digit, and a value in range. */
  function ParseI32(s: string): Option<int> {
    var negative := s != "" && s[0] == '-';
    var digits := if negative || (s != "" && s[0] == '+') then s[1..] else s;
    if digits == "" then None
    else match Numeral(digits)
      case None => None
      case Some(v) =>
        var magnitude: int := v;
        var x := if negative then -magnitude else magnitude;
        if -TWO_31 <= x < TWO_31 then Some(x) else None
  }

  lemma {:induction false} NumeralOfDecimal(n: nat)
    ensures Numeral(Decimal(n)) == Some(n)
  {
    var s := Decimal(n);
    if n < 10 {
      assert s[..|s| - 1] == "";
    } else {
      NumeralOfDecimal(n / 10);
      assert s[..|s| - 1] == Decimal(n / 10);
    }
  }

  lemma ParseU32OfDecimal(n: U32)
    ensures ParseU32(Decimal(n)) == Some(n)
  {
    NumeralOfDecimal(n);
    assert Decimal(n)[0] in Decimal(n);
  }

  lemma DecimalInjective(a: nat, b: nat)
    requires Decimal(a) == Decimal(b)
    ensures a == b
  {
    NumeralOfDecimal(a);
    NumeralOfDecimal(b);
  }

  predicate AllDigits(s: string) {
    forall i :: 0 <= i < |s| ==> IsDigit(s[i])
  }

  /** Exactly the strings of digits have a value, and leading zeros do not change it. */
  lemma {:induction false} NumeralIff(s: string)
    ensures Numeral(s).Some? <==> AllDigits(s)
    ensures Numeral("0" + s) == Numeral(s)
  {
    if s == "" {
      assert ("0" + s)[..0] == "" && ("0" + s)[0] == '0';
    } else {
      var n := |s| - 1;
      NumeralIff(s[..n]);
      assert ("0" + s)[..|s|] == "0" + s[..n] && ("0" + s)[|s|] == s[n];
    }
  }

  /** What reads as an unsigned number: digits with an optional plus sign, below 2^32. */
  lemma ParseU32Iff(digits: string)
    requires digits != "" && AllDigits(digits)
    ensures Numeral(digits).Some?
    ensures ParseU32(digits) == ParseU32("+" + digits)
    ensures ParseU32(digits) == if Numeral(digits).value < TWO_32 then Some(Numeral(digits).value) else None
    ensures ParseI32("-" + digits) ==
            if Numeral(digits).value <= TWO_31 then Some(0 - Numeral(digits).value) else None
  {
    NumeralIff(digits);
    assert IsDigit(digits[0]);
    assert ("+" + digits)[1..] == digits && ("-" + digits)[1..] == digits;
  }

  /** And nothing else does. */
  lemma ParseU32Only(s: string)
    requires ParseU32(s).Some?
    ensures s != "" && (AllDigits(s) || (s[0] == '+' && s != "+" && AllDigits(s[1..])))
  {
    NumeralIff(s);
    NumeralIff(if s != "" then s[1..] else s);
  }
}
