# currency — a verified model of two in-memory rate stores

This project models the two rate stores of the Go package `currency`. It also models the logic that fills and reads them.

- **The per-day exchange cache** (`exchange.go`). An `Exchange` maps a day key `YYYYMMDD` to that day's table of USD rates.
  - `Get` answers from the cache.
  - On a miss, `update` fetches the provider's answer for the day, normalises it and stores it.
  - The fetch is a bounded retry loop of six attempts.
  - The normaliser keeps known currencies, skips unknown ones and fails on malformed records.
- **The flat EUR converter** (`currency.go`). A `Converter` holds one table from currency to EUR rate.
  - `genConvert` and its four wrappers multiply an amount by the source's rate. Only an EUR target is served.
  - `Update` builds a query URL over the fixed `currencies` list, downloads CSV rows and parses them. It then swaps in the new table as a whole.
- **The known-code set.** This is the fixed `currencies` list.

## How to read the model

Files and modules:

- `wrappers.dfy` (`Wrappers`): `Option` and `Result`.
- `utf8.dfy` (`Utf8`): Go's byte view of a string. `ByteLen` is `len`, and `BytePrefix` is the slice `s[:n]`.
- `digits.dfy` (`Digits`): decimal digit strings, their values and zero padding.
- `calendar.dfy` (`Calendar`): timestamps and `ToDate`, the `YYYYMMDD` key.
- `decimal.dfy` (`Decimal`): `FromString` is `decimal.NewFromString`, and `FloatSyntax` is the decimal form `strconv.ParseFloat` accepts. `Parse` applies both gates, as the two price loops do.
- `currencies.dfy` (`Currencies`): the code list, the error values, `ParseCurrency`, and `ParseHead`, the parse of a symbol's first three bytes.
- `exchange.dfy` (`ExchangeCache`): the day cache, as specification functions and the `Exchange` class.
- `converter.dfy` (`CurrencyConverter`): the converter, as specification functions and the `Converter` class.

Decimal amounts are exact rationals (`real`).

- Decimal multiplication is exact.
- `ToUSD` is taken as the exact reciprocal `1 / FromUSD`.

Each Go method that changes state is a method of a Dafny class.

- Each method is proved equal to a specification function of the old state: `GetStep`, `Refresh`, `Normalize`, `Fetch`, `QueryUrl` and `Rates`.
- The properties are proved as lemmas about those functions.
- The two loops of `update` (fetch and normalise) and the two loops of the converter's `Update` (URL and rows) are `while` loops. Their invariants tie them to the specification functions.

The network is replaced by oracles.

- The yahoo day-cache endpoint is an `Oracle`. It gives the decoded response, or the error, for the i-th request made for a day key.
- The CSV download is a `CsvSource`. It maps the query URL to the decoded rows or an error.

Points about the code worth knowing:

- The converter is not built on the exchange cache. It has its own flat EUR table.
- `genConvert` ignores its time argument. It returns zero, not an error, for a non-EUR target or an unknown source.
- The day cache is USD-based. Normalisation inserts no rate for the reference currency itself.
- The code has no zero-rate rule. A zero price would reach a decimal division by zero, which panics. So a nonzero price is a precondition, not a modelled case.
- `ConvertString` returns a decimal, never an error. An unreadable literal is the zero amount (`currency.go:209-212`).
- The string converters read the amount with `NewFromString` alone. That accepts literals `ParseFloat` refuses, such as `.-5`, which is -0.05.
- Lengths and prefixes are Go's, in UTF-8 bytes. A five-character symbol such as `ÉUR=X` is six bytes long, so it is a length error.

## Model

| member | source | states |
|---|---|---|
| Calendar.ToDate | exchange.go:19-21 | No contract of its own. Its properties are in `ToDateFields` and `SameKeyIffSameDate`. |
| Calendar.ToDateFields | exchange.go:19-21 | For years 0-9999 the key is eight digits. It reads back as the year, the month and the day, each zero-padded (`20060102` layout). |
| Calendar.SameKeyIffSameDate | exchange.go:19-21 | Two valid timestamps with years 0-9999 get the same key exactly when they fall on the same calendar date. The time of day never matters. |
| Utf8.AsciiByteLen | exchange.go:94 | A string's byte length is at least its character count. The two are equal exactly for ASCII text. |
| Utf8.BytePrefixSpec | exchange.go:98 | A byte prefix, when it exists, holds exactly n bytes and starts the string. Over ASCII text it is the first n characters. |
| Currencies.CodesWellFormed | currency.go:187-198 | The list has 162 entries, matching the constants. Every entry is three upper-case letters. EUR and USD are in it. |
| Currencies.KnownIff | currency.go:187-198 | The membership test used everywhere holds exactly for the entries of the list. |
| Currencies.ParseCurrency | exchange.go:98 | No contract of its own. Its properties are in `ParsedIsKnownCode` and `ParseKnownCode`. |
| Currencies.ParsedIsKnownCode | exchange.go:98-105 | A currency that parses is a listed code of three upper-case letters. |
| Currencies.ParseKnownCode | exchange.go:98-105 | Every listed code parses to itself. |
| Currencies.ParseHead | exchange.go:98 | No contract of its own. Its properties are in `ParsedHeadIsKnownCode` and `ParseHeadOfCode`. |
| Currencies.ParsedHeadIsKnownCode | exchange.go:98-105 | A symbol whose first three bytes parse starts with three characters that upper-case to a listed code, and that code is the result. |
| Currencies.ParseHeadOfCode | exchange.go:98-105 | A symbol that starts with a listed code names that code, whatever follows. |
| Decimal.FromString | currency.go:210 | No contract of its own. Its properties are in `ParseDigits`, `ParseToDigits`, `FromStringFixedPoint`, `FromStringNegated` and `SignAfterPoint`. |
| Decimal.Parse | exchange.go:110-118 | No contract of its own. It applies the `ParseFloat` gate, then `NewFromString`. Its properties are in `ParseDigits`, `ParseToDigits`, `ParseFixedPoint`, `ParseNegated` and `SignAfterPoint`. |
| Decimal.ParseDigits | currency.go:274-278 | Every non-empty string of decimal digits, leading zeros included, reads as the number it denotes, through `NewFromString` alone and through both gates. |
| Decimal.ParseToDigits | currency.go:278 | The shortest decimal form of a natural number n reads as n, through `NewFromString` alone and through both gates. |
| Decimal.FromStringFixedPoint | currency.go:210 | `NewFromString` reads a fixed-point literal `w.f` as its digits divided by 10^\|f\|. A fraction too long for the 32-bit exponent is refused. |
| Decimal.ParseFixedPoint | exchange.go:110-118 | Through both gates, a fixed-point literal `w.f` reads as its digits divided by 10^\|f\|, with the same exponent limit. |
| Decimal.FromStringNegated | exchange.go:114-118 | For an unsigned mantissa of digits, a leading minus negates what `NewFromString` returns. |
| Decimal.ParseNegated | exchange.go:110-118 | A leading minus negates the value of an unsigned literal, through both gates. |
| Decimal.SignAfterPoint | currency.go:210 | `NewFromString` reads `.-5` as -0.05, while the two gates together refuse it. |
| ExchangeCache.RateOf | exchange.go:120-123 | The stored rate has `fromUSD` equal to the price, and `fromUSD * toUSD == 1`. |
| ExchangeCache.ReciprocalRoundTrip | exchange.go:23-26 | A reciprocal rate converts any amount to USD and back unchanged. |
| ExchangeCache.Absorb | exchange.go:91-123 | One loop iteration, case by case. A symbol not five bytes long fails with `ErrCurrencyLength`. An unknown currency leaves the table as it was, and any other parse error is returned. A named currency whose price fails a gate gives `ErrSyntax` of the price. Otherwise the currency is stored with `RateOf` of its price. |
| ExchangeCache.Normalize | exchange.go:87-127 | No contract of its own. Its properties are in the `Normalize*` lemmas below. |
| ExchangeCache.NormalizeSucceedsIff | exchange.go:90-126 | Normalisation succeeds exactly when no record is fatal. |
| ExchangeCache.NormalizeFirstFatal | exchange.go:94-118 | A failing normalisation returns the error of the first fatal record, whatever follows it. |
| ExchangeCache.NormalizeBadSymbolLength | exchange.go:94-96 | Once reached, with no earlier record fatal, a symbol not five bytes long makes the whole normalisation fail with `ErrCurrencyLength`. |
| ExchangeCache.NormalizeBadPrice | exchange.go:110-118 | Once reached, with no earlier record fatal, a known currency whose price does not parse makes the whole normalisation fail with `ErrSyntax` of that price. |
| ExchangeCache.NormalizeSkipsUnknown | exchange.go:98-103 | A record with an unknown currency is skipped. The result is as if it were absent. |
| ExchangeCache.NormalizeKeys | exchange.go:98-123 | The day's keys are exactly the known currencies named by the symbol prefixes of the records. |
| ExchangeCache.NormalizeLastWins | exchange.go:114-123 | Each entry comes from the last record naming its currency. `fromUSD` is that record's price and `toUSD` is 1 divided by it. |
| ExchangeCache.NormalizeWellFormed | exchange.go:98-123 | A normalised day holds only known codes, each with a nonzero price and its exact reciprocal. |
| ExchangeCache.Fetch | exchange.go:150-170 | No contract of its own. Its properties are in `FetchOutcome` and `FetchReadsSixAttempts`. |
| ExchangeCache.FetchOutcome | exchange.go:150-170 | The fetch fails exactly when none of attempts 1 to 6 gives a decoded, non-empty answer. It then fails always with `ErrFetchingData`, never with an oracle error. Otherwise it returns the first such answer. |
| ExchangeCache.FetchReadsSixAttempts | exchange.go:151-153 | Only attempts 1 to 6 are read. Providers that agree on them give the same result. |
| ExchangeCache.Refresh | exchange.go:70-85 | No contract of its own. It is fetch, then normalise. `Exchange.Update` is proved to compute it. |
| ExchangeCache.GetStep | exchange.go:45-68 | No contract of its own. Its properties are in the `Get*` lemmas and `CachedDayIsFinal`. |
| ExchangeCache.GetHit | exchange.go:48-67 | A hit makes no request, leaves the cache unchanged, and returns the stored rate or `ErrNotExist`. |
| ExchangeCache.GetMissStores | exchange.go:51-58 | A successful miss adds exactly the key `ToDate(t)`, holding the normalised day. No other entry changes. |
| ExchangeCache.GetMissFails | exchange.go:52-56 | A miss whose fetch or normalisation fails returns that error and leaves the cache unchanged. |
| ExchangeCache.GetExtends | exchange.go:83 | No Get removes a date or changes a stored day. |
| ExchangeCache.GetKeepsWellFormed | exchange.go:83 | Get keeps every cached day well formed. |
| ExchangeCache.GetRateWellFormed | exchange.go:61-67 | A rate Get returns is for a known currency, with a nonzero price and its reciprocal. |
| ExchangeCache.CachedDayIsFinal | exchange.go:49-51 | Once a day is cached, a Get at any time on that date after any run of other Gets is a hit, whatever the provider says. It answers from the day first stored. |
| ExchangeCache.RunExtends | exchange.go:37 | Over any sequence of Gets, the key set only grows and no stored day changes. |
| ExchangeCache.Exchange.constructor | exchange.go:35-39 | `NewExchange` starts with an empty, well-formed cache. |
| ExchangeCache.Exchange.Get | exchange.go:45-68 | The result and the new cache are the `GetStep` transition of the old cache. The cache stays well formed. |
| ExchangeCache.Exchange.Update | exchange.go:70-85 | On a fetch or normalisation error, that error is returned and the cache is unchanged. Otherwise the day is stored under `ToDate(t)`. |
| ExchangeCache.Exchange.NormalizeCurrencyData | exchange.go:87-127 | The loop with its early exits computes `Normalize` of the records. |
| ExchangeCache.Exchange.FetchCurrencyData | exchange.go:150-170 | The retry loop computes `Fetch` for the day's key, making 1 to 6 requests. |
| CurrencyConverter.QueryUrl | currency.go:249-259 | No contract of its own. Its properties are in `QueryUrlShape`, `QueryUrlLength` and `CodesQueryUrlLength`. |
| CurrencyConverter.QueryUrlShape | currency.go:249-259 | The URL is the 62-character prefix, then `XXXEUR=X` for each code in order. Entry i starts at 62 + 9i, and a comma precedes every entry but the first. |
| CurrencyConverter.QueryUrlLength | currency.go:252 | For three-letter codes, the URL is 62 + 9n - 1 characters, the capacity reserved. |
| CurrencyConverter.CodesQueryUrlLength | currency.go:252 | The query over the known list is 1519 characters. |
| CurrencyConverter.KeyOfAscii | currency.go:285-291 | For an ASCII column 0, the row has a key exactly when the column is eight characters long, and the key is its first three characters. |
| CurrencyConverter.Rates | currency.go:269-293 | No contract of its own. Its properties are in `RatesKeys`, `RatesSkips` and `RatesLastWins`. |
| CurrencyConverter.RatesKeys | currency.go:271-293 | The table's keys are exactly the `v[0:3]` prefixes of the rows that are kept. |
| CurrencyConverter.RatesSkips | currency.go:272-289 | A row with a non-numeric column 2, or a column 0 not eight bytes long, is skipped as if absent. |
| CurrencyConverter.RatesLastWins | currency.go:291-292 | A currency's rate is column 2 of the last kept row naming it. |
| CurrencyConverter.Converter.GenConvert | currency.go:227-243 | No contract of its own. Its properties are in `NonEurTargetIsZero`, `UnknownSourceIsZero`, `ConvertMultiplies` and `ConvertLinear`. |
| CurrencyConverter.Converter.Convert | currency.go:219-221 | No contract of its own. It is `GenConvert` with no time. |
| CurrencyConverter.Converter.ConvertAt | currency.go:223-225 | No contract of its own. `TimeIsIgnored` shows it equals `Convert`. |
| CurrencyConverter.Converter.ConvertString | currency.go:209-212 | No contract of its own. Its properties are in `UnparseableLiteralIsZero`, `LiteralConvertsAsItsValue` and `SignAfterPointConverts`. |
| CurrencyConverter.Converter.ConvertStringAt | currency.go:214-217 | No contract of its own. `TimeIsIgnored` shows it equals `ConvertString`. |
| CurrencyConverter.NonEurTargetIsZero | currency.go:228-231 | A non-EUR target gives zero, whatever either converter's table holds. |
| CurrencyConverter.UnknownSourceIsZero | currency.go:234-239 | A source with no table entry gives zero. |
| CurrencyConverter.ConvertMultiplies | currency.go:242 | Otherwise the result is exactly the amount times the source's rate. |
| CurrencyConverter.ConvertLinear | currency.go:242 | Conversion is additive and homogeneous in the amount, and zero converts to zero. |
| CurrencyConverter.TimeIsIgnored | currency.go:214-225 | `ConvertAt` and `ConvertStringAt` agree with their undated forms. |
| CurrencyConverter.UnparseableLiteralIsZero | currency.go:209-217 | A literal `NewFromString` refuses converts to zero in both string forms. |
| CurrencyConverter.LiteralConvertsAsItsValue | currency.go:209-212 | A whole-number or fixed-point literal converts as the amount it denotes. A fraction too long for the 32-bit exponent converts as zero. |
| CurrencyConverter.SignAfterPointConverts | currency.go:209-212 | `.-5` converts as the amount -0.05. |
| CurrencyConverter.Converter.constructor | currency.go:205-207 | `New` starts with an empty table. |
| CurrencyConverter.Converter.Update | currency.go:247-300 | On a download error, the error is returned and the table is unchanged. Otherwise the whole table is replaced by `Rates` of the rows, so no old entry survives. |
| CurrencyConverter.Converter.BuildQueryUrl | currency.go:249-259 | The buffer writes produce `QueryUrl` of the codes. |
| CurrencyConverter.Converter.ParseRates | currency.go:269-293 | The row loop computes `Rates` of the rows. |

## Left out

- HTTP, body reading and JSON/CSV decoding (`fetchYahooData`, `readCSVFromUrl`). These are replaced by the `Oracle` and `CsvSource` parameters.
- The yahoo JavaScript-wrapper trimming. It is part of the oracle.
- `sync.Mutex`. Each method is one atomic step.
- The backoff sleep. It sits in a branch the loop can never reach.
- The clock. Timestamps are given as calendar fields, with no time zone.
- The shopspring `decimal` library is not part of this model. `FromString` follows that library's `NewFromString`: an optional 32-bit exponent after the first `e` or `E`, then the digits on both sides of at most one point, read as one signed integer.
- `strconv.ParseFloat` is modelled only as its acceptance of decimal literals (`FloatSyntax`). The model does not capture:
  - hexadecimal forms, underscores, `inf` and `nan`, which `ParseFloat` accepts and `NewFromString` then refuses;
  - float range errors, which make `ParseFloat` refuse literals beyond the `float64` range.
- The error is modelled as `ErrSyntax`, not as Go's error value.
- The rounding of decimal `Div` is not modelled. `ToUSD` is exact.
- `ExchangeCache.Exchange.Get`: requires that no record the normalisation loop reaches has a zero price for a known currency (`Safe`, `NonzeroPrices`). The division would panic there. Records after the first fatal one are unconstrained.
- `ExchangeCache.Exchange.NormalizeCurrencyData`: requires the same of the records it reaches, for the same reason.
- `ExchangeCache.Exchange.FetchCurrencyData`: the request count is a ghost out-parameter.
- `CurrencyConverter.Converter.Update`: requires every row decoded for the known-code query to have at least three columns, since Go's `row[2]` would panic on a shorter row.
- `Calendar.ToDateFields`: stated only for years 0 to 9999. `ToDate` itself also follows Go's layout for wider and negative years.
- `ParseCurrency` and the error values are not defined in `exchange.go` or `currency.go`. `ParseCurrency` is modelled as a length test of three bytes, then upper-casing, then membership in the list. It therefore never returns an error other than the length and unknown errors. The normaliser still handles any other error as fatal.
- Go strings may hold invalid UTF-8, while a Dafny string is a sequence of characters. So a three-byte prefix that ends inside a character has no counterpart in the model:
  - In the normaliser, such a prefix passes the length test but matches no listed code. It is modelled as `ErrCurrencyUnknown`, which is the error Go would give.
  - In the converter, Go stores the rate under that invalid key, where no model currency can read it. The model drops the row.
- The fields of the provider response other than symbol and price, and the surrounding metadata, are never read by the core.
- The default converter and the package-level wrappers (`currency.go:320-336`). They only delegate.
- The tests need live network data. `currency_test.go` expects an error from `ConvertString`, which the code does not return.
