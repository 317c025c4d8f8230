/** Decimal text for integers, as Go's `%d` prints it and `strconv.Atoi` reads it, and the
    truncation of a 64-bit integer to 32 bits. */
module Decimal {
  import opened Options

  const INT32_LIMIT := 0x8000_0000
  const INT64_LIMIT := 0x8000_0000_0000_0000

  predicate IsInt32(n: int) {
    -INT32_LIMIT <= n < INT32_LIMIT
  }

  predicate IsDigit(c: char) {
    '0' <= c <= '9'
  }

  function DigitChar(d: nat): (c: char)
    requires d < 10
    ensures IsDigit(c) && c as int - '0' as int == d
  {
    (d + '0' as int) as char
  }

  function Digits(n: nat): string {
    if n < 10 then [DigitChar(n)] else Digits(n / 10) + [DigitChar(n % 10)]
  }

  /** What `%d` prints. */
  function Print(n: int): string {
    if n < 0 then "-" + Digits(-n) else Digits(n)
  }

  function ParseDigits(s: string): Option<nat> {
    if s == "" || !IsDigit(s[|s| - 1]) then None
    else
      var d := s[|s| - 1] as int - '0' as int;
      if |s| == 1 then Some(d)
      else match ParseDigits(s[..|s| - 1])
           case None => None
           case Some(front) => Some(10 * front + d)
  }

  /** strconv.Atoi on a 64-bit platform: an optional sign, digits, and a range check. */
  function Parse(s: string): Option<int> {
    var negative := s != "" && s[0] == '-';
    var signed := negative || (s != "" && s[0] == '+');
    match ParseDigits(if signed then s[1..] else s)
    case None => None
    case Some(magnitude) =>
      var n: int := if negative then 0 - magnitude else magnitude;
      if -INT64_LIMIT <= n < INT64_LIMIT then Some(n) else None
  }

  /** Go's conversion int32(n), which wraps around. */
  function ToInt32(n: int): (r: int)
    ensures IsInt32(r) && (n - r) % (2 * INT32_LIMIT) == 0
  {
    (n + INT32_LIMIT) % (2 * INT32_LIMIT) - INT32_LIMIT
  }

  lemma ToInt32IsIdentity(n: int)
    requires IsInt32(n)
    ensures ToInt32(n) == n
  {
  }

  lemma {:induction false} DigitsRoundTrip(n: nat)
    ensures Digits(n) != "" && IsDigit(Digits(n)[0])
    ensures ParseDigits(Digits(n)) == Some(n)
  {
    if n >= 10 {
      DigitsRoundTrip(n / 10);
      var front, last := Digits(n / 10), DigitChar(n % 10);
      assert Digits(n)[..|front|] == front;
      assert Digits(n)[|front|] == last;
    }
  }

  /** Text that starts with a digit is parsed without a sign. */
  lemma ParseUnsigned(s: string, n: nat)
    requires s != "" && IsDigit(s[0]) && ParseDigits(s) == Some(n) && n < INT64_LIMIT
    ensures Parse(s) == Some(n)
  {
    assert s[0] != '-' && s[0] != '+';
  }

  lemma ParseNegative(s: string, n: nat)
    requires ParseDigits(s) == Some(n) && n <= INT64_LIMIT
    ensures var m: int := 0 - n; Parse("-" + s) == Some(m)
  {
    var text := "-" + s;
    assert text[0] == '-' && text[1..] == s;
  }

  /** Printing and parsing a replica count gives the count back, for every int32. */
  lemma PrintParseRoundTrip(n: int)
    requires IsInt32(n)
    ensures Parse(Print(n)) == Some(n)
    ensures ToInt32(n) == n
  {
    ToInt32IsIdentity(n);
    assert INT32_LIMIT < INT64_LIMIT;
    if n < 0 {
      DigitsRoundTrip(-n);
      ParseNegative(Digits(-n), -n);
    } else {
      DigitsRoundTrip(n);
      ParseUnsigned(Digits(n), n);
    }
  }

  /** Only digits behind an optional sign can be a number. */
  lemma {:induction false} DigitsOnlyIff(s: string)
    ensures ParseDigits(s).Some? <==> s != "" && forall c | c in s :: IsDigit(c)
  {
    if |s| > 1 {
      var front := s[..|s| - 1];
      DigitsOnlyIff(front);
      assert s == front + [s[|s| - 1]];
    } else if s != "" {
      assert s == [s[0]];
    }
  }

  /** Exactly what is refused: text that is not digits behind an optional sign, and numbers that do not
      fit 64 bits. */
  lemma ParsesIff(s: string)
    ensures var digits := if s != "" && (s[0] == '-' || s[0] == '+') then s[1..] else s;
            Parse(s).Some? <==>
              && digits != "" && (forall c | c in digits :: IsDigit(c))
              && (ParseDigits(digits).Some? ==>
                    var n: int := ParseDigits(digits).value;
                    if s[0] == '-' then n <= INT64_LIMIT else n < INT64_LIMIT)
  {
    DigitsOnlyIff(if s != "" && (s[0] == '-' || s[0] == '+') then s[1..] else s);
  }

  /** Text that starts with something else than a sign or a digit is not a number. */
  lemma NotANumber(s: string)
    requires s == "" || (s[0] != '-' && s[0] != '+' && !IsDigit(s[0]))
    ensures Parse(s).None?
  {
    DigitsOnlyIff(s);
    if s != "" { assert s[0] in s; }
  }

  /** A printed number is digits without a leading zero, behind a hyphen if it is negative. */
  lemma PrintMeans(n: int)
    ensures n < 0 ==> Print(n) == "-" + Print(-n)
    ensures n >= 0 ==> Print(n) != "" && (forall c | c in Print(n) :: IsDigit(c)) && (n > 0 ==> Print(n)[0] != '0')
  {
    if n >= 0 { DigitsShape(n); }
  }

  lemma {:induction false} DigitsShape(n: nat)
    ensures Digits(n) != "" && (forall c | c in Digits(n) :: IsDigit(c)) && (n > 0 ==> Digits(n)[0] != '0')
  {
    if n >= 10 { DigitsShape(n / 10); }
  }
}
