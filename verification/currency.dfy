/** `formatCurrency`: an amount as the ledger shows it, a currency symbol
    followed by `Number.prototype.toFixed(2)` of the amount. Amounts are in
    cents, so "two decimals" is exact: whole units, a point, and the cents
    as two digits. */
module Currency {
  import opened Optional
  import opened Entries

  /** `state.currency || 'INR'`: an empty setting means rupees. */
  function CurrencyCode(setting: string): string {
    if setting == "" then "INR" else setting
  }

  /** The symbol put before the number: the rupee, dollar and euro signs for
      the three known codes, nothing for any other code. */
  function Symbol(code: string): (p: string)
    ensures code == "INR" ==> p == ['\U{20B9}']
    ensures code == "USD" ==> p == "$"
    ensures code == "EUR" ==> p == ['\U{20AC}']
    ensures p != "" <==> code == "INR" || code == "USD" || code == "EUR"
    ensures |p| <= 1
  {
    if code == "INR" then ['\U{20B9}']
    else if code == "USD" then "$"
    else if code == "EUR" then ['\U{20AC}']
    else ""
  }

  /** `Number(amount) || 0`: NaN, and zero itself, become zero. */
  function AmountValue(a: ParsedAmount): int {
    match a
    case NaN => 0
    case Number(c) => c
  }

  predicate IsDigit(c: char) {
    '0' <= c <= '9'
  }

  predicate AllDigits(s: string) {
    forall i :: 0 <= i < |s| ==> IsDigit(s[i])
  }

  /** A decimal numeral as `toFixed` writes the whole part: at least one
      digit, and no leading zero unless the numeral is `0` itself. */
  predicate Numeral(s: string) {
    |s| > 0 && AllDigits(s) && (|s| > 1 ==> s[0] != '0')
  }

  function DigitChar(d: nat): (c: char)
    requires d < 10
    ensures IsDigit(c)
  {
    (48 + d) as char
  }

  function DigitValue(c: char): (d: nat)
    requires IsDigit(c)
    ensures d < 10
  {
    c as int - 48
  }

  /** The decimal numeral of `n`. */
  function Digits(n: nat): (s: string)
    ensures Numeral(s)
    decreases n
  {
    if n < 10 then [DigitChar(n)] else Digits(n / 10) + [DigitChar(n % 10)]
  }

  /** The number a string of digits denotes, read most significant first. */
  function DigitsValue(s: string): nat
    requires AllDigits(s)
    decreases |s|
  {
    if |s| == 0 then 0 else DigitsValue(s[..|s| - 1]) * 10 + DigitValue(s[|s| - 1])
  }

  function Abs(c: int): nat {
    if c < 0 then -c else c
  }

  /** `(c / 100).toFixed(2)`: a minus sign for a negative amount, then the
      amount without its sign. */
  function ToFixed2(c: int): string {
    (if c < 0 then "-" else "") + Unsigned(Abs(c))
  }

  /** `a` cents written as the whole units, a point and exactly two digits
      of cents. */
  function Unsigned(a: nat): string {
    Digits(a / 100) + "." + [DigitChar(a % 100 / 10), DigitChar(a % 10)]
  }

  /** The amount, in cents, that a `toFixed(2)` string denotes: an optional
      minus sign, a numeral, a point and two digits; `None` for any other
      string, and for `-0.00`, which `toFixed` never writes for a whole
      number of cents. */
  function ParseFixed2(s: string): Option<int> {
    if |s| > 0 && s[0] == '-' then
      match ParseUnsigned(s[1..])
      case Some(v) => if v > 0 then Some(-v) else None
      case None => None
    else ParseUnsigned(s)
  }

  function ParseUnsigned(s: string): Option<int> {
    if |s| >= 4 && s[|s| - 3] == '.' && Numeral(s[..|s| - 3])
       && IsDigit(s[|s| - 2]) && IsDigit(s[|s| - 1])
    then Some(DigitsValue(s[..|s| - 3]) * 100 + DigitValue(s[|s| - 2]) * 10 + DigitValue(s[|s| - 1]))
    else None
  }

  /** `formatCurrency(amount)` under the currency setting `setting`. */
  function FormatCurrency(setting: string, a: ParsedAmount): string {
    Symbol(CurrencyCode(setting)) + ToFixed2(AmountValue(a))
  }

  /** Reads an amount back from what `FormatCurrency` shows: the setting's
      symbol, then a `toFixed(2)` string. */
  function ParseFormatted(setting: string, s: string): Option<int> {
    var p := Symbol(CurrencyCode(setting));
    if |p| <= |s| && s[..|p|] == p then ParseFixed2(s[|p|..]) else None
  }

  /** Reading back the numeral of `n` gives `n`. */
  lemma {:induction false} DigitsRoundTrip(n: nat)
    ensures DigitsValue(Digits(n)) == n
    decreases n
  {
    if n >= 10 {
      var s := Digits(n);
      assert s[..|s| - 1] == Digits(n / 10);
      DigitsRoundTrip(n / 10);
    }
  }

  lemma {:induction false} LeadingDigitPositive(s: string)
    requires Numeral(s) && s[0] != '0'
    ensures DigitsValue(s) > 0
    decreases |s|
  {
    if |s| > 1 {
      LeadingDigitPositive(s[..|s| - 1]);
    }
  }

  /** Every numeral is the numeral of the number it denotes. */
  lemma {:induction false} NumeralRoundTrip(s: string)
    requires Numeral(s)
    ensures Digits(DigitsValue(s)) == s
    decreases |s|
  {
    if |s| > 1 {
      var init := s[..|s| - 1];
      LeadingDigitPositive(init);
      NumeralRoundTrip(init);
      var n := DigitsValue(s);
      assert n / 10 == DigitsValue(init) && n % 10 == DigitValue(s[|s| - 1]);
      assert s == init + [s[|s| - 1]];
    }
  }

  /** `toFixed(2)` writes a string `ParseFixed2` accepts, and it denotes the
      amount: no two amounts are shown alike. */
  lemma ToFixed2RoundTrip(c: int)
    ensures ParseFixed2(ToFixed2(c)) == Some(c)
  {
    var t := Unsigned(Abs(c));
    UnsignedRoundTrip(Abs(c));
    if c < 0 {
      assert ToFixed2(c) == "-" + t;
      assert ToFixed2(c)[1..] == t;
    } else {
      assert ToFixed2(c) == t;
    }
  }

  lemma UnsignedRoundTrip(a: nat)
    ensures ParseUnsigned(Unsigned(a)) == Some(a)
  {
    var t := Unsigned(a);
    assert t[..|t| - 3] == Digits(a / 100);
    assert DigitValue(t[|t| - 2]) == a % 100 / 10 && DigitValue(t[|t| - 1]) == a % 10;
    DigitsRoundTrip(a / 100);
    SplitCents(a);
  }

  lemma SplitCents(a: nat)
    ensures a == a / 100 * 100 + a % 100 / 10 * 10 + a % 10
  {
  }

  lemma JoinCents(q: nat, d1: nat, d0: nat)
    requires d1 < 10 && d0 < 10
    ensures (q * 100 + d1 * 10 + d0) / 100 == q
    ensures (q * 100 + d1 * 10 + d0) % 100 / 10 == d1
    ensures (q * 100 + d1 * 10 + d0) % 10 == d0
  {
  }

  /** The text after a sign that `ParseUnsigned` accepts is the one written
      for the amount it denotes. */
  lemma ParseUnsignedCanonical(t: string, a: nat)
    requires ParseUnsigned(t) == Some(a)
    ensures Unsigned(a) == t
  {
    var whole := t[..|t| - 3];
    var d1, d0 := DigitValue(t[|t| - 2]), DigitValue(t[|t| - 1]);
    assert a == DigitsValue(whole) * 100 + d1 * 10 + d0;
    JoinCents(DigitsValue(whole), d1, d0);
    NumeralRoundTrip(whole);
    assert DigitChar(d1) == t[|t| - 2] && DigitChar(d0) == t[|t| - 1];
    assert t == whole + "." + [t[|t| - 2], t[|t| - 1]];
  }

  /** Every string `ParseFixed2` accepts is the one `toFixed(2)` writes for
      the amount it denotes. */
  lemma ParseFixed2Canonical(s: string, c: int)
    requires ParseFixed2(s) == Some(c)
    ensures ToFixed2(c) == s
  {
    if |s| > 0 && s[0] == '-' {
      ParseUnsignedCanonical(s[1..], -c);
      assert s == "-" + s[1..];
    } else {
      ParseUnsignedCanonical(s, c);
    }
  }

  /** The shown amount reads back as `Number(amount) || 0` under the same
      setting. */
  lemma FormatRoundTrip(setting: string, a: ParsedAmount)
    ensures ParseFormatted(setting, FormatCurrency(setting, a)) == Some(AmountValue(a))
  {
    var p := Symbol(CurrencyCode(setting));
    var s := FormatCurrency(setting, a);
    assert s[..|p|] == p && s[|p|..] == ToFixed2(AmountValue(a));
    ToFixed2RoundTrip(AmountValue(a));
  }

  /** An empty setting shows rupees, with two decimals. */
  lemma RupeeExample()
    ensures FormatCurrency("", Number(123450)) == ['\U{20B9}'] + "1234.50"
  {
    assert Digits(12) == "12";
    assert Digits(123) == "123";
    assert Digits(1234) == "1234";
    assert Unsigned(123450) == "1234.50";
  }

  /** A negative amount has its sign after the symbol. */
  lemma NegativeDollarExample()
    ensures FormatCurrency("USD", Number(-250)) == "$-2.50"
  {
    assert Unsigned(250) == "2.50";
  }

  /** An unknown code gets no symbol, and NaN shows as zero. */
  lemma NaNExample()
    ensures FormatCurrency("GBP", NaN) == "0.00"
  {
    assert Unsigned(0) == "0.00";
  }
}
