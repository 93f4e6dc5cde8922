/** CPF and CNPJ numbers: their two check digits, and formatting. */
module TaxIds {

  predicate IsDigit(c: char) { '0' <= c <= '9' }

  function Value(c: char): (v: nat)
    requires IsDigit(c)
    ensures v <= 9
  {
    (c - '0') as nat
  }

  predicate AllDigits(s: string) {
    forall c <- s :: IsDigit(c)
  }

  /** The text without everything that is not a digit. */
  function Digits(s: string): (d: string)
    ensures AllDigits(d)
  {
    if |s| == 0 then ""
    else if IsDigit(s[0]) then [s[0]] + Digits(s[1..])
    else Digits(s[1..])
  }

  lemma {:induction false} DigitsJoin(a: string, b: string)
    ensures Digits(a + b) == Digits(a) + Digits(b)
  {
    if |a| == 0 {
      assert a + b == b;
    } else {
      assert (a + b)[1..] == a[1..] + b;
      DigitsJoin(a[1..], b);
    }
  }

  lemma {:induction false} DigitsOfDigits(s: string)
    requires AllDigits(s)
    ensures Digits(s) == s
  {
    if |s| > 0 {
      assert IsDigit(s[0]) && AllDigits(s[1..]);
      DigitsOfDigits(s[1..]);
    }
  }

  predicate AllSame(s: string) {
    forall i :: 0 <= i < |s| ==> s[i] == s[0]
  }

  // ----- Check digits -----

  const CPF_FIRST: seq<nat> := [10, 9, 8, 7, 6, 5, 4, 3, 2]
  const CPF_SECOND: seq<nat> := [11, 10, 9, 8, 7, 6, 5, 4, 3, 2]
  const CNPJ_FIRST: seq<nat> := [5, 4, 3, 2, 9, 8, 7, 6, 5, 4, 3, 2]
  const CNPJ_SECOND: seq<nat> := [6, 5, 4, 3, 2, 9, 8, 7, 6, 5, 4, 3, 2]

  /** The first n digits, weighted. */
  function Sum(d: string, weights: seq<nat>, n: nat): nat
    requires AllDigits(d) && n <= |d| && n <= |weights|
  {
    if n == 0 then 0 else Sum(d, weights, n - 1) + Value(d[n - 1]) * weights[n - 1]
  }

  /** The modulo-11 test: sum and check digit together are a multiple of 11, where 0 stands for the digit 10. */
  predicate Checks(sum: nat, digit: nat) {
    (sum + digit) % 11 == 0 || (digit == 0 && (sum + 10) % 11 == 0)
  }

  /** The length, the check digits after the first k digits, and not one digit over and over. */
  predicate IsNumber(d: string, k: nat, first: seq<nat>, second: seq<nat>)
    requires AllDigits(d)
    requires |first| == k && |second| == k + 1
  {
    && |d| == k + 2 && !AllSame(d)
    && Checks(Sum(d, first, k), Value(d[k])) && Checks(Sum(d, second, k + 1), Value(d[k + 1]))
  }

  predicate IsCpf(s: string) {
    IsNumber(Digits(s), 9, CPF_FIRST, CPF_SECOND)
  }

  predicate IsCnpj(s: string) {
    IsNumber(Digits(s), 12, CNPJ_FIRST, CNPJ_SECOND)
  }

  /** The check digit as a CPF computes it, and as a CNPJ does. */
  function CpfCheck(sum: nat): (d: nat)
    ensures d <= 9
  {
    var remainder := sum * 10 % 11;
    if remainder == 10 then 0 else remainder
  }

  function CnpjCheck(sum: nat): (d: nat)
    ensures d <= 9
  {
    var remainder := sum % 11;
    if remainder < 2 then 0 else 11 - remainder
  }

  /** Only the sum's remainder matters. */
  lemma ByRemainder(sum: nat)
    ensures forall digit: nat :: Checks(sum, digit) <==> Checks(sum % 11, digit)
    ensures CpfCheck(sum) == CpfCheck(sum % 11) && CnpjCheck(sum) == CnpjCheck(sum % 11)
  {
    var q, r := sum / 11, sum % 11;
    assert sum * 10 == 110 * q + 10 * r;
  }

  /** Both pass the test, and they are the only digit that does. */
  lemma OnlyDigit(sum: nat, digit: nat)
    requires digit <= 9
    ensures Checks(sum, digit) <==> digit == CpfCheck(sum)
    ensures Checks(sum, digit) <==> digit == CnpjCheck(sum)
  {
    ByRemainder(sum);
    RemainderDigit(sum % 11, digit);
  }

  lemma RemainderDigit(r: nat, digit: nat)
    requires r < 11 && digit <= 9
    ensures Checks(r, digit) <==> digit == CpfCheck(r)
    ensures Checks(r, digit) <==> digit == CnpjCheck(r)
  {
    assert r * 10 == 11 * (r - 1) + (11 - r);
    assert r > 0 ==> r * 10 % 11 == 11 - r;
    assert (r + digit) % 11 == 0 <==> r + digit == 0 || r + digit == 11;
    assert (r + 10) % 11 == 0 <==> r == 1;
  }

  method IsValidCPF(cpf: string) returns (valid: bool)
    ensures valid <==> IsCpf(cpf)
  {
    var cleaned := Digits(cpf);
    if |cleaned| != 11 || AllSame(cleaned) {
      return false;
    }
    var sum := 0;
    for i := 0 to 9
      invariant sum == Sum(cleaned, CPF_FIRST, i)
    {
      sum := sum + Value(cleaned[i]) * (10 - i);
    }
    var remainder := sum * 10 % 11;
    if remainder == 10 {
      remainder := 0;
    }
    OnlyDigit(sum, Value(cleaned[9]));
    if remainder != Value(cleaned[9]) {
      return false;
    }
    sum := 0;
    for i := 0 to 10
      invariant sum == Sum(cleaned, CPF_SECOND, i)
    {
      sum := sum + Value(cleaned[i]) * (11 - i);
    }
    remainder := sum * 10 % 11;
    if remainder == 10 {
      remainder := 0;
    }
    OnlyDigit(sum, Value(cleaned[10]));
    return remainder == Value(cleaned[10]);
  }

  method IsValidCNPJ(cnpj: string) returns (valid: bool)
    ensures valid <==> IsCnpj(cnpj)
  {
    var cleaned := Digits(cnpj);
    if |cleaned| != 14 || AllSame(cleaned) {
      return false;
    }
    var sum := 0;
    for i := 0 to 12
      invariant sum == Sum(cleaned, CNPJ_FIRST, i)
    {
      sum := sum + Value(cleaned[i]) * CNPJ_FIRST[i];
    }
    var remainder := sum % 11;
    var digit1 := if remainder < 2 then 0 else 11 - remainder;
    OnlyDigit(sum, Value(cleaned[12]));
    if digit1 != Value(cleaned[12]) {
      return false;
    }
    sum := 0;
    for i := 0 to 13
      invariant sum == Sum(cleaned, CNPJ_SECOND, i)
    {
      sum := sum + Value(cleaned[i]) * CNPJ_SECOND[i];
    }
    remainder := sum % 11;
    var digit2 := if remainder < 2 then 0 else 11 - remainder;
    OnlyDigit(sum, Value(cleaned[13]));
    return digit2 == Value(cleaned[13]);
  }

  // ----- Every prefix has one pair of check digits -----

  function Digit(v: nat): (c: char)
    requires v <= 9
    ensures IsDigit(c) && Value(c) == v
  {
    ('0' as int + v) as char
  }

  lemma {:induction false} SumOfPrefix(d: string, e: string, weights: seq<nat>, n: nat)
    requires AllDigits(d) && AllDigits(d + e) && n <= |d| && n <= |weights|
    ensures Sum(d + e, weights, n) == Sum(d, weights, n)
  {
    if n > 0 {
      SumOfPrefix(d, e, weights, n - 1);
    }
  }

  /** For every prefix exactly one pair of digits passes both tests. */
  lemma OnePair(p: string, first: seq<nat>, second: seq<nat>) returns (a: char, b: char)
    requires AllDigits(p) && |first| == |p| && |second| == |p| + 1
    ensures IsDigit(a) && IsDigit(b)
    ensures forall x: char, y: char | IsDigit(x) && IsDigit(y) ::
      var d := p + [x] + [y];
      AllDigits(d) && (Checks(Sum(d, first, |p|), Value(x)) && Checks(Sum(d, second, |p| + 1), Value(y))
        <==> x == a && y == b)
  {
    a := Digit(CpfCheck(Sum(p, first, |p|)));
    b := Digit(CpfCheck(Sum(p + [a], second, |p| + 1)));
    forall x: char, y: char | IsDigit(x) && IsDigit(y)
      ensures var d := p + [x] + [y];
        AllDigits(d) && (Checks(Sum(d, first, |p|), Value(x)) && Checks(Sum(d, second, |p| + 1), Value(y))
          <==> x == a && y == b)
    {
      var d := p + [x] + [y];
      assert d == p + [x, y] && d == (p + [x]) + [y];
      SumOfPrefix(p, [x, y], first, |p|);
      SumOfPrefix(p + [x], [y], second, |p| + 1);
      OnlyDigit(Sum(d, first, |p|), Value(x));
      OnlyDigit(Sum(d, second, |p| + 1), Value(y));
    }
  }

  // ----- Formatting -----

  function FormatCPF(cpf: string): string {
    var d := Digits(cpf);
    if |d| < 11 then d else d[..3] + "." + d[3..6] + "." + d[6..9] + "-" + d[9..11] + d[11..]
  }

  function FormatCNPJ(cnpj: string): string {
    var d := Digits(cnpj);
    if |d| < 14 then d else d[..2] + "." + d[2..5] + "." + d[5..8] + "/" + d[8..12] + "-" + d[12..14] + d[14..]
  }

  /** One more mark and one more piece: the digits so far are still the first k digits of d. */
  lemma OneMorePiece(d: string, sofar: string, k: nat, mark: string, n: nat)
    requires AllDigits(d) && k <= n <= |d| && Digits(sofar) == d[..k] && |mark| == 1 && !IsDigit(mark[0])
    ensures Digits(sofar + mark + d[k..n]) == d[..n]
  {
    DigitsJoin(sofar + mark, d[k..n]);
    DigitsJoin(sofar, mark);
    assert Digits(mark) == "";
    DigitsOfDigits(d[k..n]);
    assert d[..k] + d[k..n] == d[..n];
  }

  lemma Closed(d: string, sofar: string, k: nat)
    requires AllDigits(d) && k <= |d| && Digits(sofar) == d[..k]
    ensures Digits(sofar + d[k..]) == d
  {
    DigitsJoin(sofar, d[k..]);
    DigitsOfDigits(d[k..]);
    assert d[..k] + d[k..] == d;
  }

  lemma CpfKeepsDigits(s: string)
    ensures Digits(FormatCPF(s)) == Digits(s)
  {
    var d := Digits(s);
    DigitsOfDigits(d);
    if |d| >= 11 {
      DigitsOfDigits(d[..3]);
      var a := d[..3] + "." + d[3..6];
      OneMorePiece(d, d[..3], 3, ".", 6);
      OneMorePiece(d, a, 6, ".", 9);
      OneMorePiece(d, a + "." + d[6..9], 9, "-", 11);
      Closed(d, a + "." + d[6..9] + "-" + d[9..11], 11);
    }
  }

  lemma CnpjKeepsDigits(s: string)
    ensures Digits(FormatCNPJ(s)) == Digits(s)
  {
    var d := Digits(s);
    DigitsOfDigits(d);
    if |d| >= 14 {
      DigitsOfDigits(d[..2]);
      var a := d[..2] + "." + d[2..5];
      OneMorePiece(d, d[..2], 2, ".", 5);
      OneMorePiece(d, a, 5, ".", 8);
      OneMorePiece(d, a + "." + d[5..8], 8, "/", 12);
      OneMorePiece(d, a + "." + d[5..8] + "/" + d[8..12], 12, "-", 14);
      Closed(d, a + "." + d[5..8] + "/" + d[8..12] + "-" + d[12..14], 14);
    }
  }

  /** Formatting adds nothing but punctuation, so a number is valid exactly when it is valid formatted, stripping
      gives the digits back, and formatting twice is formatting once. */
  lemma FormattedIsTheSame(s: string)
    ensures Digits(FormatCPF(s)) == Digits(s) && Digits(FormatCNPJ(s)) == Digits(s)
    ensures IsCpf(FormatCPF(s)) <==> IsCpf(s)
    ensures IsCnpj(FormatCNPJ(s)) <==> IsCnpj(s)
    ensures FormatCPF(FormatCPF(s)) == FormatCPF(s) && FormatCNPJ(FormatCNPJ(s)) == FormatCNPJ(s)
  {
    CpfKeepsDigits(s);
    CnpjKeepsDigits(s);
  }
}
