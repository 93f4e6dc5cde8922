/** PIX keys: their canonical form and what makes one valid. White space is the blank and the characters from tab to
    carriage return, as it is in ASCII. */
module PixKeys {
  import opened TaxIds
  import opened Text

  datatype KeyType = Cpf | Cnpj | Email | Phone | Random

  predicate IsSpace(c: char) { c == ' ' || '\t' <= c <= '\r' }

  function TrimStart(s: string): string {
    if |s| > 0 && IsSpace(s[0]) then TrimStart(s[1..]) else s
  }

  function TrimEnd(s: string): string {
    if |s| > 0 && IsSpace(s[|s| - 1]) then TrimEnd(s[..|s| - 1]) else s
  }

  function Trim(s: string): string {
    TrimEnd(TrimStart(s))
  }

  // ----- Canonical form -----

  function NormalisePhone(t: string): string {
    var d := Digits(t);
    if "+" <= t && !("55" <= d) then "+" + d
    else "+55" + if "55" <= d && |d| >= 12 then d[2..] else d
  }

  function Normalise(raw: string, k: KeyType): string {
    match k
    case Cpf => Digits(Trim(raw))
    case Cnpj => Digits(Trim(raw))
    case Email => ToLower(Trim(raw))
    case Phone => NormalisePhone(Trim(raw))
    case Random => ToLower(Trim(raw))
  }

  // ----- Validity -----

  /** A Brazilian number: area code 11 to 99 without a final 0 after 1, then nine digits that start with 9, or eight
      that start with 2 to 5. */
  predicate IsPhoneKey(s: string) {
    && (|s| == 14 || |s| == 13) && s[..3] == "+55" && AllDigits(s[3..])
    && ((s[3] == '1' && s[4] != '0') || '2' <= s[3] <= '9')
    && (if |s| == 14 then s[5] == '9' else '2' <= s[5] <= '5')
  }

  predicate IsEmailKey(s: string) {
    && (forall c <- s :: !IsSpace(c))
    && exists at, dot :: 0 < at && at + 1 < dot < |s| - 1 && s[at] == '@' && s[dot] == '.'
         && forall i :: 0 <= i < |s| && i != at ==> s[i] != '@'
  }

  predicate IsHex(c: char) { IsDigit(c) || 'a' <= c <= 'f' }

  /** A version-4 UUID in lower case. */
  predicate IsRandomKey(s: string) {
    && |s| == 36
    && forall i :: 0 <= i < 36 ==>
         if i == 8 || i == 13 || i == 18 || i == 23 then s[i] == '-'
         else if i == 14 then s[i] == '4'
         else if i == 19 then s[i] == '8' || s[i] == '9' || s[i] == 'a' || s[i] == 'b'
         else IsHex(s[i])
  }

  predicate IsValidKey(s: string, k: KeyType) {
    match k
    case Cpf => IsCpf(s)
    case Cnpj => IsCnpj(s)
    case Email => IsEmailKey(s)
    case Phone => IsPhoneKey(s)
    case Random => IsRandomKey(s)
  }

  // ----- Trimming -----

  predicate Trimmed(s: string) {
    |s| > 0 ==> !IsSpace(s[0]) && !IsSpace(s[|s| - 1])
  }

  lemma {:induction false} TrimEndKeeps(s: string)
    ensures TrimEnd(s) <= s && (|TrimEnd(s)| > 0 ==> !IsSpace(TrimEnd(s)[|TrimEnd(s)| - 1]))
    ensures Digits(TrimEnd(s)) == Digits(s)
  {
    if |s| > 0 && IsSpace(s[|s| - 1]) {
      var front := s[..|s| - 1];
      TrimEndKeeps(front);
      assert s == front + [s[|s| - 1]];
      DigitsJoin(front, [s[|s| - 1]]);
    }
  }

  lemma {:induction false} TrimStartKeeps(s: string)
    ensures |TrimStart(s)| > 0 ==> !IsSpace(TrimStart(s)[0])
    ensures Digits(TrimStart(s)) == Digits(s)
  {
    if |s| > 0 && IsSpace(s[0]) {
      TrimStartKeeps(s[1..]);
    }
  }

  lemma TrimIsTrimmed(s: string)
    ensures Trimmed(Trim(s)) && Digits(Trim(s)) == Digits(s)
  {
    TrimStartKeeps(s);
    TrimEndKeeps(TrimStart(s));
  }

  lemma TrimmedStays(s: string)
    requires Trimmed(s)
    ensures Trim(s) == s
  {
  }

  lemma NoSpaces(s: string)
    requires forall c <- s :: !IsSpace(c)
    ensures Trim(s) == s
  {
    assert |s| > 0 ==> s[0] in s && s[|s| - 1] in s;
  }

  // ----- Normalising twice -----

  lemma LowerStays(raw: string)
    ensures Trim(ToLower(Trim(raw))) == ToLower(Trim(raw)) && ToLower(ToLower(Trim(raw))) == ToLower(Trim(raw))
  {
    TrimIsTrimmed(raw);
    TrimmedStays(ToLower(Trim(raw)));
  }

  lemma DigitsStay(raw: string)
    ensures Digits(Trim(Digits(raw))) == Digits(raw)
  {
    TrimIsTrimmed(Digits(raw));
    DigitsOfDigits(Digits(raw));
  }

  /** "+" and digits come back as they are unless they start with 55 and are fewer than twelve. */
  lemma PhoneAgain(d: string)
    requires AllDigits(d)
    ensures Normalise("+" + d, Phone) == "+" + d <==> !("55" <= d) || |d| >= 12
  {
    PlusDigits(d);
    if "55" <= d && |d| >= 12 {
      assert d[..2] == "55" && d == d[..2] + d[2..];
    } else if "55" <= d {
      assert |"+55" + d| != |"+" + d|;
    }
  }

  lemma PlusDigits(d: string)
    requires AllDigits(d)
    ensures Trim("+" + d) == "+" + d && Digits("+" + d) == d
  {
    NoSpaces("+" + d);
    DigitsJoin("+", d);
    DigitsOfDigits(d);
    assert Digits("+") == "";
  }

  /** A text that starts with + and whose digits do not start with 55 names a foreign number. */
  predicate IsForeign(raw: string) {
    "+" <= Trim(raw) && !("55" <= Digits(raw))
  }

  /** Normalising twice is normalising once, for every text and every type of key but phones; and for a phone exactly
      when the text names a foreign number or holds at least ten digits. */
  lemma IdempotentIff(raw: string, k: KeyType)
    ensures var key := Normalise(raw, k);
      Normalise(key, k) == key <==> k != Phone || IsForeign(raw) || |Digits(raw)| >= 10
  {
    match k {
      case Cpf => DigitsStay(Trim(raw));
      case Cnpj => DigitsStay(Trim(raw));
      case Email => LowerStays(raw);
      case Random => LowerStays(raw);
      case Phone => PhoneIff(raw);
    }
  }

  lemma PhoneIff(raw: string)
    ensures var key := Normalise(raw, Phone); Normalise(key, Phone) == key <==> IsForeign(raw) || |Digits(raw)| >= 10
  {
    TrimIsTrimmed(raw);
    var d := Digits(raw);
    if IsForeign(raw) {
      PhoneAgain(d);
    } else {
      NationalAgain(if "55" <= d && |d| >= 12 then d[2..] else d);
    }
  }

  lemma NationalAgain(n: string)
    requires AllDigits(n)
    ensures Normalise("+55" + n, Phone) == "+55" + n <==> |n| >= 10
  {
    PhoneAgain("55" + n);
    assert "+55" + n == "+" + ("55" + n);
  }

  lemma ShortNumberGrows(m: string)
    requires AllDigits(m) && "55" <= m && |m| < 12
    ensures Normalise("+" + m, Phone) == "+55" + m
  {
    PlusDigits(m);
  }

  /** A number of fewer than ten digits, one without its area code say, gets another country code every time it is
      normalised. */
  lemma ShortPhoneGrows(n: string)
    requires AllDigits(n) && |n| < 10
    ensures Normalise(n, Phone) == "+" + ("55" + n) && Normalise("+" + ("55" + n), Phone) == "+55" + ("55" + n)
  {
    NoSpaces(n);
    DigitsOfDigits(n);
    assert "+55" + n == "+" + ("55" + n);
    ShortNumberGrows("55" + n);
  }

  /** In particular on every input whose result is a valid key. */
  lemma ValidKeysAreFixed(raw: string, k: KeyType)
    requires IsValidKey(Normalise(raw, k), k)
    ensures Normalise(Normalise(raw, k), k) == Normalise(raw, k)
  {
    TrimIsTrimmed(raw);
    IdempotentIff(raw, k);
  }

  /** Every spelling of a Brazilian number of ten or eleven digits, with any punctuation and with or without the
      country code, has the same key; and of no other number. */
  lemma SpellingsAgree(raw: string, n: string)
    requires AllDigits(n) && 10 <= |n| <= 11
    ensures Normalise(raw, Phone) == "+55" + n <==>
      Digits(raw) == "55" + n || (Digits(raw) == n && !("+" <= Trim(raw) && !("55" <= n)))
  {
    TrimIsTrimmed(raw);
    var d := Digits(raw);
    assert ("55" + n)[2..] == n;
    if "55" <= d {
      assert d[..2] == "55" && d == d[..2] + d[2..];
    }
    if "+" <= Trim(raw) && !("55" <= d) {
      assert ("+" + d)[1..] == d;
      assert ("+55" + n)[1..] == "55" + n;
    } else {
      var national := if "55" <= d && |d| >= 12 then d[2..] else d;
      assert ("+55" + national)[3..] == national && ("+55" + n)[3..] == n;
    }
  }

  /** Stripping a formatted number of the right length gives its digits back. */
  lemma FormattedKey(d: string)
    requires AllDigits(d)
    ensures Normalise(FormatCPF(d), Cpf) == d && Normalise(FormatCNPJ(d), Cnpj) == d
  {
    FormattedIsTheSame(d);
    DigitsOfDigits(d);
    TrimIsTrimmed(FormatCPF(d));
    TrimIsTrimmed(FormatCNPJ(d));
  }
}
