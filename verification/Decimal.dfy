/** Decimal numerals, as `format!` writes them and `str::parse` reads them. */
module Decimal {
  import opened Prelude

  predicate IsDigit(c: char)
  {
    '0' <= c <= '9'
  }

  ghost predicate AllDigits(s: string)
  {
    forall i :: 0 <= i < |s| ==> IsDigit(s[i])
  }

  function Digits(n: nat): (s: string)
    ensures |s| >= 1 && AllDigits(s)
  {
    if n < 10 then [('0' as int + n) as char] else Digits(n / 10) + Digits(n % 10)
  }

  /** The number a digit string denotes; none if some character is not a digit. */
  function ValueOf(s: string): (v: Option<nat>)
    ensures v.Some? <==> AllDigits(s)
  {
    if s == [] then Some(0)
    else
      assert s == s[..|s| - 1] + [s[|s| - 1]];
      match ValueOf(s[..|s| - 1])
      case None => None
      case Some(high) =>
        var c := s[|s| - 1];
        if IsDigit(c) then Some(10 * high + (c as int - '0' as int)) else None
  }

  function ParseU128(s: string): (v: Option<nat>)
  {
    var body := if s != [] && s[0] == '+' then s[1..] else s;
    if body == [] then None
    else match ValueOf(body)
         case None => None
         case Some(n) => if n < U128_LIMIT then Some(n) else None
  }

  lemma {:induction false} ValueOfDigits(n: nat)
    ensures ValueOf(Digits(n)) == Some(n)
  {
    if n < 10 {
      assert Digits(n)[..0] == [];
    } else {
      ValueOfDigits(n / 10);
      assert Digits(n % 10) == [('0' as int + n % 10) as char];
      assert Digits(n)[..|Digits(n)| - 1] == Digits(n / 10);
    }
  }

  lemma ParseDigits(n: nat)
    requires n < U128_LIMIT
    ensures ParseU128(Digits(n)) == Some(n)
  {
    ValueOfDigits(n);
    assert IsDigit(Digits(n)[0]);
  }

  lemma DigitsInjective(m: nat, n: nat)
    requires Digits(m) == Digits(n)
    ensures m == n
  {
    ValueOfDigits(m);
    ValueOfDigits(n);
  }

  /** A number is read exactly from a digit string, with or without a plus sign, that denotes less than 2^128. */
  lemma ParsesExactlyWhen(s: string, n: nat)
    ensures ParseU128(s) == Some(n) <==>
            exists digits: string :: (s == digits || s == "+" + digits) && digits != [] && ValueOf(digits) == Some(n)
                                     && n < 0x1_0000_0000_0000_0000_0000_0000_0000_0000
  {
    var body := if s != [] && s[0] == '+' then s[1..] else s;
    if ParseU128(s) == Some(n) {
      assert s == body || s == "+" + body;
    }
    if digits: string :| (s == digits || s == "+" + digits) && digits != [] && ValueOf(digits) == Some(n)
                         && n < 0x1_0000_0000_0000_0000_0000_0000_0000_0000 {
      assert IsDigit(digits[0]);
      assert body == digits;
    }
  }
}
