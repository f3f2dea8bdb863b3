/** The Kotlin standard-library text operations whose exact behaviour the
    benchmark's parsing and rendering depend on: `String.toIntOrNull`,
    `Int.toString`, `String.toBooleanStrictOrNull`, `Boolean.toString`,
    `String.lowercase`/`uppercase` and `String.compareTo`. */
module KotlinText {
  import opened Wrappers

  /** The range of Kotlin's 32-bit `Int`. */
  const INT_MIN: int := -0x8000_0000
  const INT_MAX: int := 0x7fff_ffff

  predicate IsInt(n: int) { INT_MIN <= n <= INT_MAX }

  predicate IsDigit(c: char) { '0' <= c <= '9' }

  predicate AllDigits(s: string) { forall i :: 0 <= i < |s| ==> IsDigit(s[i]) }

  function DigitValue(c: char): (d: nat)
    requires IsDigit(c)
    ensures d < 10
  {
    c as int - '0' as int
  }

  function DigitChar(d: nat): (c: char)
    requires d < 10
    ensures IsDigit(c) && DigitValue(c) == d
  {
    ('0' as int + d) as char
  }

  /** The value of a run of decimal digits, most significant digit first. */
  function DigitsValue(s: string): nat
    requires AllDigits(s)
  {
    if s == [] then 0 else DigitsValue(s[..|s| - 1]) * 10 + DigitValue(s[|s| - 1])
  }

  function Pow10(k: nat): nat
  {
    if k == 0 then 1 else 10 * Pow10(k - 1)
  }

  /** `String.toIntOrNull()`: an optional '+' or '-' followed by at least one
      decimal digit, with a value that fits in an `Int`; anything else, the
      empty string and out-of-range numerals included, gives null. */
  function ToIntOrNull(s: string): (r: Option<int>)
    ensures r.Some? ==> IsInt(r.value)
    ensures r.Some? ==> |s| > 0 && IsDigit(s[|s| - 1])
  {
    if |s| == 0 then None
    else if s[0] == '-' || s[0] == '+' then
      var digits := s[1..];
      if |digits| == 0 || !AllDigits(digits) then None
      else
        var magnitude: int := DigitsValue(digits);
        var v := if s[0] == '-' then -magnitude else magnitude;
        if IsInt(v) then Some(v) else None
    else if AllDigits(s) && DigitsValue(s) <= INT_MAX then Some(DigitsValue(s))
    else None
  }

  /** Which texts `toIntOrNull` accepts and what they give: exactly an
      optional '+' or '-' followed by at least one decimal digit, leading
      zeros allowed, whose signed value is an `Int`. */
  lemma ToIntOrNullIff(s: string, n: int)
    ensures ToIntOrNull(s) == Some(n) <==>
              IsInt(n) && exists sign, digits :: IsSignedNumeral(s, sign, digits) && NumeralValue(sign, digits) == n
  {
    if ToIntOrNull(s) == Some(n) {
      if s[0] == '-' || s[0] == '+' {
        assert IsSignedNumeral(s, s[..1], s[1..]);
        assert NumeralValue(s[..1], s[1..]) == n;
      } else {
        assert s == [] + s;
        assert IsSignedNumeral(s, [], s);
      }
    }
    if IsInt(n) && exists sign, digits :: IsSignedNumeral(s, sign, digits) && NumeralValue(sign, digits) == n {
      var sign, digits :| IsSignedNumeral(s, sign, digits) && NumeralValue(sign, digits) == n;
      if sign == [] {
        assert s == digits;
        assert s[0] != '-' && s[0] != '+';
      } else {
        assert s[0] == sign[0] && s[1..] == digits;
      }
    }
  }

  /** `s` is the sign `sign` ("", "+" or "-") followed by the digits `digits`. */
  predicate IsSignedNumeral(s: string, sign: string, digits: string)
  {
    (sign == "" || sign == "+" || sign == "-") && |digits| > 0 && AllDigits(digits) && s == sign + digits
  }

  /** The value of the digits, negated after a '-'. */
  function NumeralValue(sign: string, digits: string): int
    requires AllDigits(digits)
  {
    if sign == "-" then -(DigitsValue(digits) as int) else DigitsValue(digits)
  }

  /** An explicit '+' and leading zeros are accepted. */
  lemma SignedAndPaddedNumerals()
    ensures ToIntOrNull("+20") == Some(20)
    ensures ToIntOrNull("007") == Some(7)
  {
    ToIntOrNullIff("+20", 20);
    assert IsSignedNumeral("+20", "+", "20") && DigitsValue("20") == 20 by {
      assert "20"[..1] == "2";
    }
    ToIntOrNullIff("007", 7);
    assert IsSignedNumeral("007", "", "007") && DigitsValue("007") == 7 by {
      assert "007"[..2] == "00" && "00"[..1] == "0";
    }
  }

  /** Concatenation of texts is associative. */
  lemma Associate<T>(a: seq<T>, b: seq<T>, c: seq<T>)
    ensures a + b + c == a + (b + c)
  {
  }

  /** The decimal numeral of a natural number, without leading zeros. */
  function NatToString(n: nat): (s: string)
    ensures |s| > 0 && AllDigits(s)
    ensures s[0] != '0' || n == 0
    ensures DigitsValue(s) == n
    decreases n
  {
    if n < 10 then [DigitChar(n)]
    else
      var prefix := NatToString(n / 10);
      var s := prefix + [DigitChar(n % 10)];
      assert s[..|s| - 1] == prefix;
      s
  }

  /** `Int.toString()`: the decimal numeral, with a leading '-' when negative. */
  function IntToString(n: int): (s: string)
    ensures |s| > 0 && IsDigit(s[|s| - 1])
    ensures s[0] == '-' <==> n < 0
  {
    if n < 0 then "-" + NatToString(-n) else NatToString(n)
  }

  /** Parsing the rendering of any `Int` gives that `Int` back. */
  lemma ToIntOrNullOfIntToString(n: int)
    requires IsInt(n)
    ensures ToIntOrNull(IntToString(n)) == Some(n)
  {
    var s := IntToString(n);
    if n < 0 {
      assert s[1..] == NatToString(-n);
    }
  }

  /** Different numbers render differently. */
  lemma IntToStringInjective(a: int, b: int)
    requires IntToString(a) == IntToString(b)
    ensures a == b
  {
    var s := IntToString(a);
    if a < 0 {
      assert NatToString(-a) == s[1..] == NatToString(-b);
    }
  }

  lemma {:induction false} Pow10Monotone(j: nat, k: nat)
    requires j <= k
    ensures Pow10(j) <= Pow10(k)
  {
    if j < k {
      Pow10Monotone(j, k - 1);
    }
  }

  lemma {:induction false} DigitsValueAtLeast(s: string)
    requires |s| > 0 && AllDigits(s) && s[0] != '0'
    ensures DigitsValue(s) >= Pow10(|s| - 1)
  {
    if |s| > 1 {
      var prefix := s[..|s| - 1];
      assert prefix[0] == s[0];
      DigitsValueAtLeast(prefix);
    }
  }

  /** A numeral of more than ten significant digits is not an `Int`, so
      `toIntOrNull` rejects it instead of saturating. */
  lemma LongNumeralIsNotInt(s: string)
    requires AllDigits(s) && |s| > 10 && s[0] != '0'
    ensures ToIntOrNull(s) == None
  {
    DigitsValueAtLeast(s);
    Pow10Monotone(10, |s| - 1);
    assert Pow10(10) == 10_000_000_000;
  }

  /** `Boolean.toString()`. */
  function BooleanToString(b: bool): string
  {
    if b then "true" else "false"
  }

  /** `String.toBooleanStrictOrNull()`: exactly "true" or "false", case-sensitive. */
  function ToBooleanStrictOrNull(s: string): (r: Option<bool>)
    ensures forall b :: r == Some(b) <==> s == BooleanToString(b)
  {
    if s == "true" then Some(true) else if s == "false" then Some(false) else None
  }

  predicate IsUpper(c: char) { 'A' <= c <= 'Z' }

  predicate IsLower(c: char) { 'a' <= c <= 'z' }

  function LowerChar(c: char): char
  {
    if IsUpper(c) then (c as int + 32) as char else c
  }

  function UpperChar(c: char): char
  {
    if IsLower(c) then (c as int - 32) as char else c
  }

  /** `String.lowercase()` on ASCII letters. */
  function Lowercase(s: string): string
  {
    seq(|s|, i requires 0 <= i < |s| => LowerChar(s[i]))
  }

  /** `String.uppercase()` on ASCII letters. */
  function Uppercase(s: string): string
  {
    seq(|s|, i requires 0 <= i < |s| => UpperChar(s[i]))
  }

  /** Equal characters, or the two cases of one ASCII letter. */
  predicate SameIgnoringCase(a: char, b: char)
  {
    || a == b
    || (IsUpper(a) && b as int == a as int + 32)
    || (IsLower(a) && b as int == a as int - 32)
  }

  /** `String.equals(other, ignoreCase = true)` on ASCII letters. */
  predicate EqualsIgnoreCase(s: string, t: string)
  {
    |s| == |t| && forall i :: 0 <= i < |s| ==> SameIgnoringCase(s[i], t[i])
  }

  /** Comparing lower-cased strings is comparing ignoring case. */
  lemma LowercaseEqualIff(s: string, t: string)
    ensures Lowercase(s) == Lowercase(t) <==> EqualsIgnoreCase(s, t)
  {
    if Lowercase(s) == Lowercase(t) {
      forall i | 0 <= i < |s| ensures SameIgnoringCase(s[i], t[i]) {
        assert Lowercase(s)[i] == Lowercase(t)[i];
      }
    }
    if EqualsIgnoreCase(s, t) {
      forall i | 0 <= i < |s| ensures Lowercase(s)[i] == Lowercase(t)[i] {
        assert SameIgnoringCase(s[i], t[i]);
      }
    }
  }

  /** Comparing upper-cased strings is comparing ignoring case. */
  lemma UppercaseEqualIff(s: string, t: string)
    ensures Uppercase(s) == Uppercase(t) <==> EqualsIgnoreCase(s, t)
  {
    if Uppercase(s) == Uppercase(t) {
      forall i | 0 <= i < |s| ensures SameIgnoringCase(s[i], t[i]) {
        assert Uppercase(s)[i] == Uppercase(t)[i];
      }
    }
    if EqualsIgnoreCase(s, t) {
      forall i | 0 <= i < |s| ensures Uppercase(s)[i] == Uppercase(t)[i] {
        assert SameIgnoringCase(s[i], t[i]);
      }
    }
  }

  /** `a.compareTo(b) <= 0`: lexicographic order on characters, where a
      proper prefix comes first. */
  function StringLe(a: string, b: string): bool
  {
    if a == [] then true
    else if b == [] then false
    else if a[0] != b[0] then a[0] < b[0]
    else StringLe(a[1..], b[1..])
  }

  lemma {:induction false} StringLeTotal(a: string, b: string)
    ensures StringLe(a, b) || StringLe(b, a)
  {
    if a != [] && b != [] && a[0] == b[0] {
      StringLeTotal(a[1..], b[1..]);
    }
  }

  lemma {:induction false} StringLeTransitive(a: string, b: string, c: string)
    requires StringLe(a, b) && StringLe(b, c)
    ensures StringLe(a, c)
  {
    if a != [] && b != [] && c != [] && a[0] == b[0] == c[0] {
      StringLeTransitive(a[1..], b[1..], c[1..]);
    }
  }

  lemma {:induction false} StringLeAntisymmetric(a: string, b: string)
    requires StringLe(a, b) && StringLe(b, a)
    ensures a == b
  {
    if a != [] && b != [] {
      StringLeAntisymmetric(a[1..], b[1..]);
      assert a == [a[0]] + a[1..];
      assert b == [b[0]] + b[1..];
    }
  }
}
