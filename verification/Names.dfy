// The shape of a pseudonym: a prefix from the table, an underscore, a decimal
// number padded to three digits (rubezh-sanitizer/app/masking/pseudonymizer.py).
module Names {
  import opened Entities
  import opened Strings

  function Prefix(t: EntityType): string {
    match t
    case Person => "ФИО"
    case Phone => "ТЕЛЕФОН"
    case Email => "EMAIL"
    case Passport => "ПАСПОРТ"
    case Snils => "СНИЛС"
    case Inn => "ИНН"
    case Kpp => "КПП"
    case Ogrn => "ОГРН"
    case Bik => "БИК"
    case Account => "СЧЕТ"
    case BankCard => "КАРТА"
    case SecretApiKey => "СЕКРЕТ"
    case SecretJwt => "СЕКРЕТ"
    case SecretOauth => "СЕКРЕТ"
    case SecretPassword => "СЕКРЕТ"
    case SecretDsn => "СЕКРЕТ"
    case SecretConnString => "СЕКРЕТ"
    case SecretCardCvc => "CVC"
    case CommercialAmount => "СУММА"
    case CommercialContract => "ДОГОВОР"
    case CommercialSupplier => "КОНТРАГЕНТ"
    case CommercialTerms => "УСЛОВИЕ"
  }

  predicate Digits(s: string) { forall i :: 0 <= i < |s| ==> IsDigit(s[i]) }

  function Digit(d: nat): (c: char)
    requires d < 10
    ensures IsDigit(c)
  {
    ('0' as int + d) as char
  }

  /** Plain decimal, no padding. */
  function Decimal(n: nat): (s: string)
    ensures s != "" && Digits(s)
  {
    if n < 10 then [Digit(n)] else Decimal(n / 10) + [Digit(n % 10)]
  }

  /** `f"{n:03d}"`. */
  function Pad3(n: nat): (s: string)
    ensures Digits(s) && |s| >= 3
  {
    var s := Decimal(n);
    if |s| == 1 then "00" + s else if |s| == 2 then "0" + s else s
  }

  function Format(t: EntityType, n: nat): string {
    Prefix(t) + "_" + Pad3(n)
  }

  // ----- reading a number back

  function Value(s: string): nat
    requires Digits(s)
  {
    if s == "" then 0 else 10 * Value(s[..|s| - 1]) + (s[|s| - 1] as int - '0' as int)
  }

  lemma {:induction false} ValueDecimal(n: nat)
    ensures Value(Decimal(n)) == n
  {
    if n < 10 {
      assert Decimal(n)[..0] == "";
    } else {
      ValueDecimal(n / 10);
      assert Decimal(n)[..|Decimal(n)| - 1] == Decimal(n / 10);
    }
  }

  lemma {:induction false} ValueLeadingZero(s: string)
    requires Digits(s)
    ensures Digits("0" + s) && Value("0" + s) == Value(s)
  {
    assert forall i :: 0 <= i < |"0" + s| ==> IsDigit(("0" + s)[i]);
    if s == "" {
      assert ("0" + s)[..0] == "";
    } else {
      ValueLeadingZero(s[..|s| - 1]);
      assert ("0" + s)[..|s|] == "0" + s[..|s| - 1];
    }
  }

  lemma ValuePad3(n: nat)
    ensures Value(Pad3(n)) == n
  {
    var s := Decimal(n);
    ValueDecimal(n);
    ValueLeadingZero(s);
    ValueLeadingZero("0" + s);
    assert "0" + ("0" + s) == "00" + s;
  }

  lemma {:induction false} DecimalLength(n: nat)
    requires n < 1000
    ensures |Decimal(n)| <= 3
  {
    if n >= 10 {
      DecimalLength(n / 10);
      if n >= 100 {
        assert n / 10 / 10 < 10 && |Decimal(n / 10 / 10)| == 1;
      }
    }
  }

  // ----- the prefix table

  predicate PrefixChar(c: char) { c != '_' && !IsDigit(c) }

  /** The last three characters tell the prefixes apart. */
  function Tail(t: EntityType): (char, char, char) {
    match t
    case Person => ('Ф', 'И', 'О')
    case Phone => ('Ф', 'О', 'Н')
    case Email => ('A', 'I', 'L')
    case Passport => ('О', 'Р', 'Т')
    case Snils => ('И', 'Л', 'С')
    case Inn => ('И', 'Н', 'Н')
    case Kpp => ('К', 'П', 'П')
    case Ogrn => ('Г', 'Р', 'Н')
    case Bik => ('Б', 'И', 'К')
    case Account => ('Ч', 'Е', 'Т')
    case BankCard => ('Р', 'Т', 'А')
    case SecretCardCvc => ('C', 'V', 'C')
    case CommercialAmount => ('М', 'М', 'А')
    case CommercialContract => ('В', 'О', 'Р')
    case CommercialSupplier => ('Е', 'Н', 'Т')
    case CommercialTerms => ('В', 'И', 'Е')
    case _ => ('Р', 'Е', 'Т')
  }

  lemma PrefixFacts(t: EntityType)
    ensures |Prefix(t)| >= 3
    ensures forall i :: 0 <= i < |Prefix(t)| ==> PrefixChar(Prefix(t)[i])
    ensures var p := Prefix(t); (p[|p| - 3], p[|p| - 2], p[|p| - 1]) == Tail(t)
  {
  }

  lemma TailsTellApart(t: EntityType, u: EntityType)
    requires Tail(t) == Tail(u)
    ensures Prefix(t) == Prefix(u)
  {
  }

  /** No prefix of the table is the end of another one. */
  lemma SuffixFree(t: EntityType, u: EntityType, k: nat)
    requires k <= |Prefix(t)| && Prefix(t)[k..] == Prefix(u)
    ensures k == 0 && Prefix(t) == Prefix(u)
  {
    var p, q := Prefix(t), Prefix(u);
    PrefixFacts(t);
    PrefixFacts(u);
    assert |q| == |p| - k;
    assert forall i :: 0 <= i < |q| ==> q[i] == p[k + i];
    TailsTellApart(t, u);
  }

  // ----- reading a pseudonym in context

  /** The first underscore of `s` stands at `b`, after prefix characters only. */
  ghost predicate HeadAt(s: string, b: nat) {
    b < |s| && s[b] == '_' && forall i :: 0 <= i < b ==> PrefixChar(s[i])
  }

  /** ... and only digits follow it. */
  ghost predicate Shaped(s: string, b: nat) {
    HeadAt(s, b) && forall i :: b < i < |s| ==> IsDigit(s[i])
  }

  lemma FormatShaped(t: EntityType, n: nat)
    ensures Shaped(Format(t, n), |Prefix(t)|)
    ensures Format(t, n)[..|Prefix(t)|] == Prefix(t)
    ensures Format(t, n)[|Prefix(t)| + 1..] == Pad3(n)
  {
    PrefixFacts(t);
  }

  lemma HeadUnique(s: string, a: nat, b: nat)
    requires HeadAt(s, a) && HeadAt(s, b)
    ensures a == b
  {
  }

  lemma HeadExtends(key: string, a: nat, whole: string)
    requires HeadAt(key, a) && key <= whole
    ensures HeadAt(whole, a)
  {
  }

  lemma HeadsAlign(key: string, a: nat, other: string, b: nat, gap: string, rest: string)
    requires Shaped(key, a) && Shaped(other, b)
    requires key <= gap + (other + rest) && |gap| < |key|
    ensures a == |gap| + b && key[|gap|..a] == other[..b]
  {
    var whole, r := gap + (other + rest), |gap|;
    HeadExtends(key, a, whole);
    assert whole[r] == other[0] && key[r] == whole[r];
    assert r <= a;
    assert whole[r..] == other + rest;
    HeadExtends(other, b, whole[r..]);
    assert forall i :: 0 <= i < a - r ==> whole[r..][i] == whole[r + i];
    assert HeadAt(whole[r..], a - r);
    HeadUnique(whole[r..], a - r, b);
  }

  /** A pseudonym that starts in free text and reached the start of another one
      would have that other prefix as a proper ending of its own. */
  lemma NoStraddle(t: EntityType, n: nat, u: EntityType, m: nat, gap: string, rest: string)
    requires gap != ""
    requires Format(t, n) <= gap + (Format(u, m) + rest)
    ensures |Format(t, n)| <= |gap|
  {
    hide Prefix, Pad3;
    FormatShaped(t, n);
    FormatShaped(u, m);
    if |gap| < |Format(t, n)| {
      var a, r := |Prefix(t)|, |gap|;
      HeadsAlign(Format(t, n), a, Format(u, m), |Prefix(u)|, gap, rest);
      assert Format(t, n)[r..a] == Format(t, n)[..a][r..];
      SuffixFree(t, u, r);
    }
  }

  /** At the place of a pseudonym only one with the same prefix can be read. */
  lemma SamePrefixAtStart(t: EntityType, n: nat, u: EntityType, m: nat, rest: string)
    requires Format(t, n) <= Format(u, m) + rest
    ensures Prefix(t) == Prefix(u)
    ensures Pad3(n) <= Pad3(m) + rest
  {
    hide Prefix, Pad3;
    FormatShaped(t, n);
    FormatShaped(u, m);
    var key, other, a := Format(t, n), Format(u, m), |Prefix(t)|;
    assert "" + (other + rest) == other + rest;
    HeadsAlign(key, a, other, |Prefix(u)|, "", rest);
    assert key[0..a] == key[..a];
    assert (other + rest)[a + 1..] == other[a + 1..] + rest;
    assert key[a + 1..] <= (other + rest)[a + 1..];
  }

  /** Pseudonyms are injective in (prefix, number). */
  lemma FormatInjective(t: EntityType, n: nat, u: EntityType, m: nat)
    requires Format(t, n) == Format(u, m)
    ensures Prefix(t) == Prefix(u) && n == m
  {
    FormatShaped(t, n);
    FormatShaped(u, m);
    HeadUnique(Format(t, n), |Prefix(t)|, |Prefix(u)|);
    ValuePad3(n);
    ValuePad3(m);
  }
}
