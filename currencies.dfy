/** Currency codes and the package's error values. The code table is the
    `currencies` array of currency.go:187-198, one row per source line.
    `ParseCurrency` and the error values are referenced by the core files but
    are not part of this model's sources; `ParseCurrency` is modelled as:
    reject a length other than three bytes, upper-case the input, reject a
    code outside the table. */
module Currencies {
  import opened Wrappers
  import opened Utf8
  import Calendar

  /** Go's `type Currency string`: any string converts to it unchecked. */
  type Currency = string

  const EUR: Currency := "EUR"
  const USD: Currency := "USD"

  const Row0: seq<Currency> := ["AED", "AFN", "ALL", "AMD", "ANG", "AOA", "ARS", "AUD", "AWG", "AZN", "BAM", "BBD", "BDT", "BGN", "BHD"]
  const Row1: seq<Currency> := ["BIF", "BMD", "BND", "BOB", "BRL", "BSD", "BTN", "BWP", "BYR", "BZD", "CAD", "CDF", "CHF", "CLP", "CNY"]
  const Row2: seq<Currency> := ["COP", "CRC", "CUC", "CUP", "CVE", "CZK", "DJF", "DKK", "DOP", "DZD", "EGP", "ERN", "ETB", "EUR", "FJD"]
  const Row3: seq<Currency> := ["FKP", "GBP", "GEL", "GGP", "GHS", "GIP", "GMD", "GNF", "GTQ", "GYD", "HKD", "HNL", "HRK", "HTG", "HUF"]
  const Row4: seq<Currency> := ["IDR", "ILS", "IMP", "INR", "IQD", "IRR", "ISK", "JEP", "JMD", "JOD", "JPY", "KES", "KGS", "KHR", "KMF"]
  const Row5: seq<Currency> := ["KPW", "KRW", "KWD", "KYD", "KZT", "LAK", "LBP", "LKR", "LRD", "LSL", "LYD", "MAD", "MDL", "MGA", "MKD"]
  const Row6: seq<Currency> := ["MMK", "MNT", "MOP", "MRO", "MUR", "MVR", "MWK", "MXN", "MYR", "MZN", "NAD", "NGN", "NIO", "NOK", "NPR"]
  const Row7: seq<Currency> := ["NZD", "OMR", "PAB", "PEN", "PGK", "PHP", "PKR", "PLN", "PYG", "QAR", "RON", "RSD", "RUB", "RWF", "SAR"]
  const Row8: seq<Currency> := ["SBD", "SCR", "SDG", "SEK", "SGD", "SHP", "SLL", "SOS", "SPL", "SRD", "STD", "SVC", "SYP", "SZL", "THB"]
  const Row9: seq<Currency> := ["TJS", "TMT", "TND", "TOP", "TRY", "TTD", "TVD", "TWD", "TZS", "UAH", "UGX", "USD", "UYU", "UZS", "VEF"]
  const Row10: seq<Currency> := ["VND", "VUV", "WST", "XAF", "XCD", "XDR", "XOF", "XPF", "YER", "ZAR", "ZMW", "ZWD"]

  /** The known codes, in source order. */
  const Codes: seq<Currency> := Row0 + Row1 + Row2 + Row3 + Row4 + Row5 + Row6 + Row7 + Row8 + Row9 + Row10

  predicate IsUpper(c: char) {
    'A' <= c <= 'Z'
  }

  /** Membership in a list of codes, unfolded one entry at a time. */
  predicate InList(c: Currency, list: seq<Currency>)
    decreases list
  {
    list != [] && (list[0] == c || InList(c, list[1..]))
  }

  /** A code of the table. */
  predicate Known(c: Currency) {
    InList(c, Codes)
  }

  lemma {:induction false} InListIff(c: Currency, list: seq<Currency>)
    ensures InList(c, list) <==> c in list
    decreases list
  {
    if list != [] {
      InListIff(c, list[1..]);
      assert list == [list[0]] + list[1..];
    }
  }

  /** `Known` is membership in the table. */
  lemma KnownIff(c: Currency)
    ensures Known(c) <==> c in Codes
  {
    InListIff(c, Codes);
  }

  /** A three-letter upper-case code. */
  predicate IsCode(s: string) {
    |s| == 3 && IsUpper(s[0]) && IsUpper(s[1]) && IsUpper(s[2])
  }

  lemma RowCodes0() ensures forall c :: c in Row0 ==> IsCode(c) {}
  lemma RowCodes1() ensures forall c :: c in Row1 ==> IsCode(c) {}
  lemma RowCodes2() ensures forall c :: c in Row2 ==> IsCode(c) {}
  lemma RowCodes3() ensures forall c :: c in Row3 ==> IsCode(c) {}
  lemma RowCodes4() ensures forall c :: c in Row4 ==> IsCode(c) {}
  lemma RowCodes5() ensures forall c :: c in Row5 ==> IsCode(c) {}
  lemma RowCodes6() ensures forall c :: c in Row6 ==> IsCode(c) {}
  lemma RowCodes7() ensures forall c :: c in Row7 ==> IsCode(c) {}
  lemma RowCodes8() ensures forall c :: c in Row8 ==> IsCode(c) {}
  lemma RowCodes9() ensures forall c :: c in Row9 ==> IsCode(c) {}
  lemma RowCodes10() ensures forall c :: c in Row10 ==> IsCode(c) {}

  /** The table has 162 entries, each a three-letter upper-case code, and it
      contains the two reference currencies. */
  lemma CodesWellFormed()
    ensures |Codes| == 162
    ensures forall c :: c in Codes ==> IsCode(c)
    ensures EUR in Codes && USD in Codes
  {
    RowCodes0();
    RowCodes1();
    RowCodes2();
    RowCodes3();
    RowCodes4();
    RowCodes5();
    RowCodes6();
    RowCodes7();
    RowCodes8();
    RowCodes9();
    RowCodes10();
  }

  datatype Error =
    | ErrCurrencyLength
    | ErrCurrencyUnknown
    | ErrNotExist(currency: Currency, time: Calendar.Timestamp)
    | ErrFetchingData
      /** A price literal that `strconv.ParseFloat` or `decimal.NewFromString` rejects. */
    | ErrSyntax(literal: string)
      /** A transport or decoding error reported by the provider call. */
    | ErrProvider(message: string)

  /** ASCII upper-casing. */
  function ToUpper(s: string): (u: string)
    ensures |u| == |s|
    ensures forall i :: 0 <= i < |s| ==> u[i] == (if 'a' <= s[i] <= 'z' then (s[i] as int - 32) as char else s[i])
  {
    if s == [] then []
    else [if 'a' <= s[0] <= 'z' then (s[0] as int - 32) as char else s[0]] + ToUpper(s[1..])
  }

  function ParseCurrency(s: string): Result<Currency, Error> {
    if ByteLen(s) != 3 then Failure(ErrCurrencyLength)
    else if Known(ToUpper(s)) then Success(ToUpper(s))
    else Failure(ErrCurrencyUnknown)
  }

  /** Every successful parse yields a three-letter upper-case code of the
      table. */
  lemma ParsedIsKnownCode(s: string)
    requires ParseCurrency(s).Success?
    ensures Known(ParseCurrency(s).value) && IsCode(ParseCurrency(s).value)
  {
    KnownIff(ParseCurrency(s).value);
    CodesWellFormed();
  }

  /** Upper-case codes are unchanged by upper-casing, so a known code parses
      to itself. */
  lemma ParseKnownCode(c: Currency)
    requires Known(c)
    ensures ParseCurrency(c) == Success(c)
  {
    CodesWellFormed();
    KnownIff(c);
    assert ToUpper(c) == c;
    assert IsAscii(c);
    AsciiByteLen(c);
  }

  /** `ParseCurrency(s[:3])` on Go's byte string. When the third byte ends
      inside a multi-byte character the prefix is not valid UTF-8: it is
      three bytes long, so the length test passes, and no code of the table
      (all ASCII) equals it, so it is unknown. */
  function ParseHead(s: string): Result<Currency, Error> {
    match BytePrefix(s, 3)
    case None => Failure(ErrCurrencyUnknown)
    case Some(p) => ParseCurrency(p)
  }

  /** A head that parses is a code of the table, and it is the first three
      characters of `s`. */
  lemma ParsedHeadIsKnownCode(s: string)
    requires ParseHead(s).Success?
    ensures Known(ParseHead(s).value) && IsCode(ParseHead(s).value)
    ensures |s| >= 3 && ParseHead(s).value == ToUpper(s[..3])
  {
    var p := BytePrefix(s, 3).value;
    BytePrefixSpec(s, 3);
    ParsedIsKnownCode(p);
    AsciiByteLen(p);
    assert |p| == 3 by {
      assert |ToUpper(p)| == |p|;
    }
    assert p == s[..3];
  }

  /** A symbol that starts with a code of the table names that code. */
  lemma ParseHeadOfCode(c: Currency, rest: string)
    requires Known(c)
    ensures ParseHead(c + rest) == Success(c)
  {
    CodesWellFormed();
    KnownIff(c);
    var s := c + rest;
    assert s[..3] == c;
    assert IsAscii(s[..3]);
    BytePrefixSpec(s, 3);
    ParseKnownCode(c);
  }
}
