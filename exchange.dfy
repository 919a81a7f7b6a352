/** The per-day exchange-rate cache of exchange.go: a map from a day key to
    that day's table of USD rates, filled on demand from the provider.
    The provider call (`fetchYahooData`: HTTP, body trimming, JSON decoding)
    is an oracle: a function giving the answer to the i-th request made for
    a day key. The mutex is not modelled; each method is one atomic step. */
module ExchangeCache {
  import opened Wrappers
  import opened Calendar
  import opened Currencies
  import opened Utf8
  import Decimal

  /** Rates relative to USD: multiply a USD amount by `fromUSD` to get this
      currency, multiply this currency by `toUSD` to get USD. */
  datatype ExchangeRate = ExchangeRate(fromUSD: real, toUSD: real)

  type DayTable = map<Currency, ExchangeRate>

  type Cache = map<Date, DayTable>

  /** The two fields of a provider record (`resource.fields`) that are read. */
  datatype Resource = Resource(symbol: string, price: string)

  /** The provider's decoded answer (`list.resources`). */
  datatype Response = Response(resources: seq<Resource>)

  /** The provider: the answer to the `attempt`-th request for a day key,
      either a decoded response or the transport/decoding error. */
  type Oracle = (Date, nat) -> Result<Response, Error>

  const MaxTries: nat := 7

  /** The stored rate for a provider price (exchange.go:120-123); decimal
      division is taken as exact. */
  function RateOf(price: real): (r: ExchangeRate)
    requires price != 0.0
    ensures r.fromUSD == price && r.fromUSD * r.toUSD == 1.0
  {
    ExchangeRate(price, 1.0 / price)
  }

  /** A nonzero price paired with its reciprocal. */
  predicate Reciprocal(r: ExchangeRate) {
    r.fromUSD != 0.0 && r.toUSD == 1.0 / r.fromUSD
  }

  /** Converting to USD and back is the identity. */
  lemma ReciprocalRoundTrip(r: ExchangeRate, amount: real)
    requires Reciprocal(r)
    ensures r.fromUSD * r.toUSD == 1.0
    ensures amount * r.toUSD * r.fromUSD == amount
  {
  }

  /** A day table as the cache may hold it: known codes only, every rate
      reciprocal. */
  ghost predicate WellFormedDay(d: DayTable) {
    forall c :: c in d ==> Known(c) && Reciprocal(d[c])
  }

  ghost predicate WellFormedCache(cache: Cache) {
    forall k :: k in cache ==> WellFormedDay(cache[k])
  }

  /** The cache only gains keys; stored days are never changed. */
  ghost predicate Extends(before: Cache, after: Cache) {
    before.Keys <= after.Keys && forall k :: k in before ==> after[k] == before[k]
  }

  // ---------------------------------------------------------------------
  // normalizeCurrencyData (exchange.go:87-127)

  /** Go's division by a zero price panics: a record that reaches the
      division must carry a nonzero price. */
  predicate Divisible(r: Resource) {
    (ByteLen(r.symbol) == 5 && ParseHead(r.symbol).Success? && Decimal.Parse(r.price).Some?) ==>
      Decimal.Parse(r.price).value != 0.0
  }

  /** Every record the loop reaches is divisible. The loop stops at the
      first fatal record, so the records after it are unconstrained. */
  predicate NonzeroPrices(rs: seq<Resource>)
    decreases rs
  {
    rs == [] || (Divisible(rs[0]) && (Verdict(rs[0]).None? ==> NonzeroPrices(rs[1..])))
  }

  /** One iteration of the normalisation loop, case by case: a symbol of
      the wrong length is fatal, an unknown currency leaves the table as it
      was, any other parse error is fatal, and a named currency is stored
      with its price or fails on a price that does not parse. The last two
      clauses restate the outcome through `Verdict`, the form the loop-level
      lemmas below reason with. */
  function Absorb(data: DayTable, r: Resource): (a: Result<DayTable, Error>)
    requires Divisible(r)
    ensures ByteLen(r.symbol) != 5 ==> a == Failure(ErrCurrencyLength)
    ensures ByteLen(r.symbol) == 5 && ParseHead(r.symbol) == Failure(ErrCurrencyUnknown) ==> a == Success(data)
    ensures ByteLen(r.symbol) == 5 && ParseHead(r.symbol).Failure? && ParseHead(r.symbol).error != ErrCurrencyUnknown ==>
      a == Failure(ParseHead(r.symbol).error)
    ensures forall c :: Names(r, c) && Decimal.Parse(r.price).None? ==> a == Failure(ErrSyntax(r.price))
    ensures forall c :: Names(r, c) && Decimal.Parse(r.price).Some? ==>
      a == Success(data[c := RateOf(Decimal.Parse(r.price).value)])
    ensures a.Success? <==> Verdict(r).None?
    ensures a.Failure? ==> a.error == Verdict(r).value
  {
    if ByteLen(r.symbol) != 5 then Failure(ErrCurrencyLength)
    else match ParseHead(r.symbol)
      case Failure(e) => if e == ErrCurrencyUnknown then Success(data) else Failure(e)
      case Success(cur) =>
        match Decimal.Parse(r.price)
        case None => Failure(ErrSyntax(r.price))
        case Some(p) => Success(data[cur := RateOf(p)])
  }

  /** The loop from `data` over the remaining records, stopping at the first
      error. */
  function NormalizeFrom(data: DayTable, rs: seq<Resource>): Result<DayTable, Error>
    requires NonzeroPrices(rs)
    decreases rs
  {
    if rs == [] then Success(data)
    else match Absorb(data, rs[0])
      case Failure(e) => Failure(e)
      case Success(d) => NormalizeFrom(d, rs[1..])
  }

  function Normalize(rs: seq<Resource>): Result<DayTable, Error>
    requires NonzeroPrices(rs)
  {
    NormalizeFrom(map[], rs)
  }

  lemma NormalizeFromNext(data: DayTable, rs: seq<Resource>, i: nat)
    requires i < |rs| && NonzeroPrices(rs[i..])
    ensures Divisible(rs[i])
    ensures Verdict(rs[i]).None? ==> NonzeroPrices(rs[i + 1..])
    ensures NormalizeFrom(data, rs[i..]) ==
      match Absorb(data, rs[i])
      case Failure(e) => Failure(e)
      case Success(d) => NormalizeFrom(d, rs[i + 1..])
  {
    assert rs[i..][0] == rs[i] && rs[i..][1..] == rs[i + 1..];
  }

  /** Reference reading of the skip-versus-fail rules: the error a record
      makes fatal, if any. */
  function Verdict(r: Resource): Option<Error> {
    if ByteLen(r.symbol) != 5 then Some(ErrCurrencyLength)
    else if ParseHead(r.symbol) == Failure(ErrCurrencyUnknown) then None
    else if ParseHead(r.symbol).Failure? then Some(ParseHead(r.symbol).error)
    else if Decimal.Parse(r.price).None? then Some(ErrSyntax(r.price))
    else None
  }

  /** The record names currency `c` (and so writes its entry). */
  predicate Names(r: Resource, c: Currency) {
    ByteLen(r.symbol) == 5 && ParseHead(r.symbol) == Success(c)
  }

  lemma {:induction false} NormalizeFromSucceedsIff(data: DayTable, rs: seq<Resource>)
    requires NonzeroPrices(rs)
    ensures NormalizeFrom(data, rs).Success? <==> forall i :: 0 <= i < |rs| ==> Verdict(rs[i]).None?
    decreases rs
  {
    if rs != [] {
      match Absorb(data, rs[0])
      case Failure(e) =>
      case Success(d) =>
        NormalizeFromSucceedsIff(d, rs[1..]);
        assert forall i :: 1 <= i < |rs| ==> rs[i] == rs[1..][i - 1];
    }
  }

  /** Normalisation succeeds exactly when no record is fatal. */
  lemma {:induction false} NormalizeSucceedsIff(rs: seq<Resource>)
    requires NonzeroPrices(rs)
    ensures Normalize(rs).Success? <==> forall i :: 0 <= i < |rs| ==> Verdict(rs[i]).None?
  {
    NormalizeFromSucceedsIff(map[], rs);
  }

  lemma {:induction false} NormalizeFromFirstFatal(data: DayTable, rs: seq<Resource>, i: nat)
    requires NonzeroPrices(rs)
    requires i < |rs| && Verdict(rs[i]).Some?
    requires forall j :: 0 <= j < i ==> Verdict(rs[j]).None?
    ensures NormalizeFrom(data, rs) == Failure(Verdict(rs[i]).value)
    decreases rs
  {
        if i > 0 {
      var d := Absorb(data, rs[0]).value;
      assert forall j :: 0 <= j < i - 1 ==> rs[1..][j] == rs[j + 1];
      NormalizeFromFirstFatal(d, rs[1..], i - 1);
    }
  }

  /** A failing normalisation returns the error of the first fatal record,
      whatever the records after it hold. */
  lemma {:induction false} NormalizeFirstFatal(rs: seq<Resource>, i: nat)
    requires NonzeroPrices(rs)
    requires i < |rs| && Verdict(rs[i]).Some?
    requires forall j :: 0 <= j < i ==> Verdict(rs[j]).None?
    ensures Normalize(rs) == Failure(Verdict(rs[i]).value)
  {
    NormalizeFromFirstFatal(map[], rs, i);
  }

  /** A symbol that is not five bytes long fails the whole
      normalisation with ErrCurrencyLength once it is reached. */
  lemma {:induction false} NormalizeBadSymbolLength(rs: seq<Resource>, i: nat)
    requires NonzeroPrices(rs)
    requires i < |rs| && ByteLen(rs[i].symbol) != 5
    requires forall j :: 0 <= j < i ==> Verdict(rs[j]).None?
    ensures Normalize(rs) == Failure(ErrCurrencyLength)
  {
    NormalizeFirstFatal(rs, i);
  }

  /** A known currency whose price does not parse fails the whole
      normalisation once it is reached. */
  lemma {:induction false} NormalizeBadPrice(rs: seq<Resource>, i: nat, c: Currency)
    requires NonzeroPrices(rs)
    requires i < |rs| && Names(rs[i], c) && Decimal.Parse(rs[i].price).None?
    requires forall j :: 0 <= j < i ==> Verdict(rs[j]).None?
    ensures Normalize(rs) == Failure(ErrSyntax(rs[i].price))
  {
    NormalizeFirstFatal(rs, i);
  }

  /** Dropping a record the loop passes over keeps the prices divisible. */
  lemma {:induction false} NonzeroPricesSkip(p: seq<Resource>, r: Resource, q: seq<Resource>)
    requires NonzeroPrices(p + [r] + q) && Verdict(r).None?
    ensures NonzeroPrices(p + q)
    decreases p
  {
    SkipShape(p, r, q);
    NonzeroPricesTail(p + [r] + q);
    if p != [] {
      if Verdict(p[0]).None? {
        NonzeroPricesSkip(p[1..], r, q);
      }
      NonzeroPricesHead(p + q);
    }
  }

  /** How `p + [r] + q` and `p + q` split into head and tail. */
  lemma SkipShape<T>(p: seq<T>, r: T, q: seq<T>)
    ensures var s, s' := p + [r] + q, p + q;
      s != [] &&
      (p == [] ==> s[0] == r && s[1..] == q && s' == q) &&
      (p != [] ==> s[0] == p[0] && s[1..] == p[1..] + [r] + q &&
                   s' != [] && s'[0] == p[0] && s'[1..] == p[1..] + q)
  {
    if p == [] {
      assert p + [r] + q == [r] + q;
    } else {
      assert (p + [r] + q)[1..] == p[1..] + [r] + q;
      assert (p + q)[1..] == p[1..] + q;
    }
  }

  lemma NonzeroPricesTail(rs: seq<Resource>)
    requires rs != [] && NonzeroPrices(rs)
    ensures Divisible(rs[0]) && (Verdict(rs[0]).None? ==> NonzeroPrices(rs[1..]))
  {
  }

  lemma NonzeroPricesHead(rs: seq<Resource>)
    requires rs != [] && Divisible(rs[0]) && (Verdict(rs[0]).None? ==> NonzeroPrices(rs[1..]))
    ensures NonzeroPrices(rs)
  {
  }

  lemma {:induction false} NormalizeFromSkipsUnknown(data: DayTable, p: seq<Resource>, r: Resource, q: seq<Resource>)
    requires NonzeroPrices(p + [r] + q)
    requires ByteLen(r.symbol) == 5 && ParseHead(r.symbol) == Failure(ErrCurrencyUnknown)
    ensures NonzeroPrices(p + q)
    ensures NormalizeFrom(data, p + [r] + q) == NormalizeFrom(data, p + q)
    decreases p
  {
    NonzeroPricesSkip(p, r, q);
    if p == [] {
      assert p + [r] + q == [r] + q;
      assert ([r] + q)[1..] == q;
      assert p + q == q;
    } else {
      var s, s' := p + [r] + q, p + q;
      assert s[0] == p[0] && s'[0] == p[0];
      assert s[1..] == p[1..] + [r] + q;
      assert s'[1..] == p[1..] + q;
      match Absorb(data, p[0])
      case Failure(e) =>
      case Success(d) => NormalizeFromSkipsUnknown(d, p[1..], r, q);
    }
  }

  /** A record of five characters whose currency is unknown is skipped: the
      result is as if it were not there. */
  lemma {:induction false} NormalizeSkipsUnknown(p: seq<Resource>, r: Resource, q: seq<Resource>)
    requires NonzeroPrices(p + [r] + q)
    requires ByteLen(r.symbol) == 5 && ParseHead(r.symbol) == Failure(ErrCurrencyUnknown)
    ensures NonzeroPrices(p + q)
    ensures Normalize(p + [r] + q) == Normalize(p + q)
  {
    NormalizeFromSkipsUnknown(map[], p, r, q);
  }

  lemma {:induction false} NormalizeFromKeys(data: DayTable, rs: seq<Resource>)
    requires NonzeroPrices(rs)
    requires NormalizeFrom(data, rs).Success?
    ensures forall c :: c in NormalizeFrom(data, rs).value <==>
      c in data || exists i :: 0 <= i < |rs| && Names(rs[i], c)
    decreases rs
  {
    if rs != [] {
      var d := Absorb(data, rs[0]).value;
      NormalizeFromKeys(d, rs[1..]);
      forall c ensures c in d <==> c in data || Names(rs[0], c) {
        assert ParseHead(rs[0].symbol).Failure? || ParseHead(rs[0].symbol) == Success(ParseHead(rs[0].symbol).value);
      }
      forall c ensures (exists i :: 0 <= i < |rs| && Names(rs[i], c)) <==>
        Names(rs[0], c) || exists i :: 0 <= i < |rs[1..]| && Names(rs[1..][i], c)
      {
        if exists i :: 0 <= i < |rs| && Names(rs[i], c) {
          var i :| 0 <= i < |rs| && Names(rs[i], c);
          if i > 0 { assert rs[1..][i - 1] == rs[i]; }
        }
        if exists i :: 0 <= i < |rs[1..]| && Names(rs[1..][i], c) {
          var i :| 0 <= i < |rs[1..]| && Names(rs[1..][i], c);
          assert rs[i + 1] == rs[1..][i];
        }
      }
    }
  }

  /** The keys of a normalised day are exactly the known currencies that
      some record names. */
  lemma {:induction false} NormalizeKeys(rs: seq<Resource>)
    requires NonzeroPrices(rs)
    requires Normalize(rs).Success?
    ensures forall c :: c in Normalize(rs).value <==> exists i :: 0 <= i < |rs| && Names(rs[i], c)
  {
    NormalizeFromKeys(map[], rs);
  }

  lemma {:induction false} NormalizeFromKeepsUnnamed(data: DayTable, rs: seq<Resource>, c: Currency)
    requires NonzeroPrices(rs)
    requires NormalizeFrom(data, rs).Success? && c in data
    requires forall j :: 0 <= j < |rs| ==> !Names(rs[j], c)
    ensures c in NormalizeFrom(data, rs).value && NormalizeFrom(data, rs).value[c] == data[c]
    decreases rs
  {
    if rs != [] {
      assert forall j :: 0 <= j < |rs| - 1 ==> rs[1..][j] == rs[j + 1];
      assert ParseHead(rs[0].symbol).Failure? || ParseHead(rs[0].symbol) == Success(ParseHead(rs[0].symbol).value);
      NormalizeFromKeepsUnnamed(Absorb(data, rs[0]).value, rs[1..], c);
    }
  }

  lemma {:induction false} NormalizeFromLastWins(data: DayTable, rs: seq<Resource>, i: nat, c: Currency)
    requires NonzeroPrices(rs)
    requires NormalizeFrom(data, rs).Success?
    requires i < |rs| && Names(rs[i], c)
    requires forall j :: i < j < |rs| ==> !Names(rs[j], c)
    ensures Decimal.Parse(rs[i].price).Some? && Decimal.Parse(rs[i].price).value != 0.0
    ensures c in NormalizeFrom(data, rs).value
    ensures NormalizeFrom(data, rs).value[c] == RateOf(Decimal.Parse(rs[i].price).value)
    decreases rs
  {
    if i == 0 {
      NormalizeFromLastWinsAtHead(data, rs, c);
    } else {
      NormalizeFromTail(data, rs);
      assert rs[1..][i - 1] == rs[i];
      assert forall j :: i - 1 < j < |rs| - 1 ==> rs[1..][j] == rs[j + 1];
      NormalizeFromLastWins(Absorb(data, rs[0]).value, rs[1..], i - 1, c);
    }
  }

  lemma NormalizeFromLastWinsAtHead(data: DayTable, rs: seq<Resource>, c: Currency)
    requires NonzeroPrices(rs)
    requires NormalizeFrom(data, rs).Success?
    requires rs != [] && Names(rs[0], c)
    requires forall j :: 0 < j < |rs| ==> !Names(rs[j], c)
    ensures Decimal.Parse(rs[0].price).Some? && Decimal.Parse(rs[0].price).value != 0.0
    ensures c in NormalizeFrom(data, rs).value
    ensures NormalizeFrom(data, rs).value[c] == RateOf(Decimal.Parse(rs[0].price).value)
  {
    NormalizeFromTail(data, rs);
    var r := rs[0];
    var d := Absorb(data, r).value;
    assert ParseHead(r.symbol) == Success(c);
    assert Decimal.Parse(r.price).Some?;
    assert d == data[c := RateOf(Decimal.Parse(r.price).value)];
    assert forall j :: 0 <= j < |rs| - 1 ==> rs[1..][j] == rs[j + 1];
    NormalizeFromKeepsUnnamed(d, rs[1..], c);
  }

  lemma NormalizeFromTail(data: DayTable, rs: seq<Resource>)
    requires rs != [] && NonzeroPrices(rs) && NormalizeFrom(data, rs).Success?
    ensures Divisible(rs[0]) && Absorb(data, rs[0]).Success? && NonzeroPrices(rs[1..])
    ensures NormalizeFrom(data, rs) == NormalizeFrom(Absorb(data, rs[0]).value, rs[1..])
  {
  }

  /** Each stored entry comes from the LAST record naming its currency:
      `fromUSD` is that record's price and `toUSD` its reciprocal. */
  lemma {:induction false} NormalizeLastWins(rs: seq<Resource>, i: nat, c: Currency)
    requires NonzeroPrices(rs)
    requires Normalize(rs).Success?
    requires i < |rs| && Names(rs[i], c)
    requires forall j :: i < j < |rs| ==> !Names(rs[j], c)
    ensures Decimal.Parse(rs[i].price).Some? && Decimal.Parse(rs[i].price).value != 0.0
    ensures c in Normalize(rs).value
    ensures Normalize(rs).value[c].fromUSD == Decimal.Parse(rs[i].price).value
    ensures Normalize(rs).value[c].toUSD == 1.0 / Decimal.Parse(rs[i].price).value
  {
    NormalizeFromLastWins(map[], rs, i, c);
  }

  lemma {:induction false} NormalizeFromWellFormed(data: DayTable, rs: seq<Resource>)
    requires NonzeroPrices(rs)
    requires WellFormedDay(data) && NormalizeFrom(data, rs).Success?
    ensures WellFormedDay(NormalizeFrom(data, rs).value)
    decreases rs
  {
    if rs != [] {
      AbsorbWellFormed(data, rs[0]);
      NormalizeFromWellFormed(Absorb(data, rs[0]).value, rs[1..]);
    }
  }

  lemma AbsorbWellFormed(data: DayTable, r: Resource)
    requires Divisible(r) && WellFormedDay(data) && Absorb(data, r).Success?
    ensures WellFormedDay(Absorb(data, r).value)
  {
    if ByteLen(r.symbol) == 5 && ParseHead(r.symbol).Success? {
      ParsedHeadIsKnownCode(r.symbol);
      var p := Decimal.Parse(r.price).value;
      assert Absorb(data, r).value == data[ParseHead(r.symbol).value := RateOf(p)];
      DayStoreWellFormed(data, ParseHead(r.symbol).value, p);
    }
  }

  lemma DayStoreWellFormed(data: DayTable, c: Currency, p: real)
    requires WellFormedDay(data) && Known(c) && p != 0.0
    ensures WellFormedDay(data[c := RateOf(p)])
  {
  }

  /** A normalised day holds only known codes, each with a nonzero price
      and its exact reciprocal. */
  lemma {:induction false} NormalizeWellFormed(rs: seq<Resource>)
    requires NonzeroPrices(rs)
    requires Normalize(rs).Success?
    ensures WellFormedDay(Normalize(rs).value)
  {
    NormalizeFromWellFormed(map[], rs);
  }

  // ---------------------------------------------------------------------
  // fetchCurrencyData (exchange.go:150-170)

  /** An answer the retry loop accepts: decoded, with at least one record. */
  predicate Usable(a: Result<Response, Error>) {
    a.Success? && |a.value.resources| > 0
  }

  /** The retry loop from attempt `i` on. */
  function FetchFrom(fetch: Oracle, key: Date, i: nat): Result<Response, Error>
    decreases MaxTries - i
  {
    if i >= MaxTries then Failure(ErrFetchingData)
    else if Usable(fetch(key, i)) then fetch(key, i)
    else FetchFrom(fetch, key, i + 1)
  }

  function Fetch(fetch: Oracle, key: Date): Result<Response, Error> {
    FetchFrom(fetch, key, 1)
  }

  lemma {:induction false} FetchFromOutcome(fetch: Oracle, key: Date, i: nat)
    requires 1 <= i
    ensures FetchFrom(fetch, key, i) == Failure(ErrFetchingData) <==>
      forall j :: i <= j < MaxTries ==> !Usable(fetch(key, j))
    ensures FetchFrom(fetch, key, i).Success? ==>
      exists j :: i <= j < MaxTries && Usable(fetch(key, j)) && FetchFrom(fetch, key, i) == fetch(key, j) &&
        forall k :: i <= k < j ==> !Usable(fetch(key, k))
    decreases MaxTries - i
  {
    if i < MaxTries && !Usable(fetch(key, i)) {
      FetchFromOutcome(fetch, key, i + 1);
      if FetchFrom(fetch, key, i).Success? {
        var j :| i + 1 <= j < MaxTries && Usable(fetch(key, j)) && FetchFrom(fetch, key, i + 1) == fetch(key, j) &&
          forall k :: i + 1 <= k < j ==> !Usable(fetch(key, k));
        assert forall k :: i <= k < j ==> !Usable(fetch(key, k));
      }
    }
  }

  /** The fetch fails exactly when none of the attempts 1 to 6 gives a usable
      answer, and then always with ErrFetchingData: an oracle error is never
      returned. Otherwise it returns the first usable answer. */
  lemma FetchOutcome(fetch: Oracle, key: Date)
    ensures Fetch(fetch, key).Failure? <==> forall j :: 1 <= j < MaxTries ==> !Usable(fetch(key, j))
    ensures Fetch(fetch, key).Failure? ==> Fetch(fetch, key).error == ErrFetchingData
    ensures Fetch(fetch, key).Success? ==>
      exists j :: 1 <= j < MaxTries && Usable(fetch(key, j)) && Fetch(fetch, key) == fetch(key, j) &&
        forall k :: 1 <= k < j ==> !Usable(fetch(key, k))
  {
    FetchFromOutcome(fetch, key, 1);
  }

  lemma {:induction false} FetchFromAttempts(f1: Oracle, f2: Oracle, key: Date, i: nat)
    requires forall j :: i <= j < MaxTries ==> f1(key, j) == f2(key, j)
    ensures FetchFrom(f1, key, i) == FetchFrom(f2, key, i)
    decreases MaxTries - i
  {
    if i < MaxTries {
      FetchFromAttempts(f1, f2, key, i + 1);
    }
  }

  /** At most six requests are made: providers that agree on attempts 1 to 6
      for the day give the same fetch result. */
  lemma FetchReadsSixAttempts(f1: Oracle, f2: Oracle, key: Date)
    requires forall j :: 1 <= j < MaxTries ==> f1(key, j) == f2(key, j)
    ensures Fetch(f1, key) == Fetch(f2, key)
  {
    FetchFromAttempts(f1, f2, key, 1);
  }

  // ---------------------------------------------------------------------
  // update and Get (exchange.go:45-85)

  /** The provider's answer for the day normalises without a zero price
      reaching the division. */
  predicate Safe(fetch: Oracle, key: Date) {
    Fetch(fetch, key).Success? ==> NonzeroPrices(Fetch(fetch, key).value.resources)
  }

  /** update's computation: fetch, then normalise. */
  function Refresh(fetch: Oracle, key: Date): Result<DayTable, Error>
    requires Safe(fetch, key)
  {
    match Fetch(fetch, key)
    case Failure(e) => Failure(e)
    case Success(resp) => Normalize(resp.resources)
  }

  /** The rate of `c` in a day table, or ErrNotExist. */
  function Lookup(day: DayTable, c: Currency, t: Timestamp): Result<ExchangeRate, Error> {
    if c in day then Success(day[c]) else Failure(ErrNotExist(c, t))
  }

  /** Get as one atomic transition: its result and the new cache. */
  function GetStep(cache: Cache, t: Timestamp, c: Currency, fetch: Oracle): (Result<ExchangeRate, Error>, Cache)
    requires ToDate(t) !in cache ==> Safe(fetch, ToDate(t))
  {
    var key := ToDate(t);
    if key in cache then (Lookup(cache[key], c, t), cache)
    else match Refresh(fetch, key)
      case Failure(e) => (Failure(e), cache)
      case Success(day) => (Lookup(day, c, t), cache[key := day])
  }

  /** A hit makes no request (any provider gives the same step), leaves the
      cache as it was, and answers from the stored day. */
  lemma GetHit(cache: Cache, t: Timestamp, c: Currency, f1: Oracle, f2: Oracle)
    requires ToDate(t) in cache
    ensures GetStep(cache, t, c, f1) == GetStep(cache, t, c, f2)
    ensures GetStep(cache, t, c, f1).1 == cache
    ensures GetStep(cache, t, c, f1).0 ==
      if c in cache[ToDate(t)] then Success(cache[ToDate(t)][c]) else Failure(ErrNotExist(c, t))
  {
  }

  /** A miss whose fetch and normalisation succeed adds exactly the key
      ToDate(t), holding the normalised day, and changes no other entry. */
  lemma GetMissStores(cache: Cache, t: Timestamp, c: Currency, fetch: Oracle)
    requires ToDate(t) !in cache && Safe(fetch, ToDate(t))
    requires Refresh(fetch, ToDate(t)).Success?
    ensures GetStep(cache, t, c, fetch).1.Keys == cache.Keys + {ToDate(t)}
    ensures GetStep(cache, t, c, fetch).1[ToDate(t)] == Refresh(fetch, ToDate(t)).value
    ensures forall k :: k in cache ==> GetStep(cache, t, c, fetch).1[k] == cache[k]
  {
  }

  /** A miss whose fetch or normalisation fails returns that error and
      stores nothing. */
  lemma GetMissFails(cache: Cache, t: Timestamp, c: Currency, fetch: Oracle)
    requires ToDate(t) !in cache && Safe(fetch, ToDate(t))
    requires Refresh(fetch, ToDate(t)).Failure?
    ensures GetStep(cache, t, c, fetch) == (Failure(Refresh(fetch, ToDate(t)).error), cache)
  {
  }

  /** Every Get extends the cache: no date is removed or overwritten. */
  lemma GetExtends(cache: Cache, t: Timestamp, c: Currency, fetch: Oracle)
    requires ToDate(t) !in cache ==> Safe(fetch, ToDate(t))
    ensures Extends(cache, GetStep(cache, t, c, fetch).1)
  {
  }

  /** Get keeps every cached day well formed. */
  lemma GetKeepsWellFormed(cache: Cache, t: Timestamp, c: Currency, fetch: Oracle)
    requires ToDate(t) !in cache ==> Safe(fetch, ToDate(t))
    requires WellFormedCache(cache)
    ensures WellFormedCache(GetStep(cache, t, c, fetch).1)
  {
    var key := ToDate(t);
    if key !in cache {
      var resp := Fetch(fetch, key);
      if resp.Success? && Normalize(resp.value.resources).Success? {
        var day := Normalize(resp.value.resources).value;
        NormalizeWellFormed(resp.value.resources);
        StoreWellFormed(cache, key, day);
      }
    }
  }

  /** Every rate Get returns from a well-formed cache is for a known
      currency and pairs a nonzero price with its reciprocal. */
  lemma GetRateWellFormed(cache: Cache, t: Timestamp, c: Currency, fetch: Oracle)
    requires ToDate(t) !in cache ==> Safe(fetch, ToDate(t))
    requires WellFormedCache(cache)
    requires GetStep(cache, t, c, fetch).0.Success?
    ensures Known(c) && Reciprocal(GetStep(cache, t, c, fetch).0.value)
  {
    var key := ToDate(t);
    GetKeepsWellFormed(cache, t, c, fetch);
    var (r, after) := GetStep(cache, t, c, fetch);
    if key in cache {
      assert r == Lookup(cache[key], c, t);
      DayRatesWellFormed(cache[key], c, t);
    } else {
      var day := Refresh(fetch, key).value;
      assert after == cache[key := day] && r == Lookup(day, c, t);
      assert WellFormedDay(after[key]);
      DayRatesWellFormed(day, c, t);
    }
  }

  lemma StoreWellFormed(cache: Cache, key: Date, day: DayTable)
    requires WellFormedCache(cache) && WellFormedDay(day)
    ensures WellFormedCache(cache[key := day])
  {
  }

  lemma DayRatesWellFormed(day: DayTable, c: Currency, t: Timestamp)
    requires WellFormedDay(day)
    ensures Lookup(day, c, t).Success? ==> Known(c) && Reciprocal(Lookup(day, c, t).value)
  {
  }

  /** Once a day is cached, every later Get for a time on the same date,
      after any run of other Gets, is a hit whatever the provider answers:
      it returns the lookup in the day first stored, and a day is never
      refreshed. */
  lemma CachedDayIsFinal(cache: Cache, t: Timestamp, reqs: seq<Request>,
                         t2: Timestamp, c2: Currency, fetch2: Oracle)
    requires ToDate(t) in cache
    requires forall i :: 0 <= i < |reqs| ==> Safe(reqs[i].fetch, ToDate(reqs[i].time))
    requires (t2.year, t2.month, t2.day) == (t.year, t.month, t.day)
    ensures var later := Run(cache, reqs);
      ToDate(t) in later &&
      GetStep(later, t2, c2, fetch2) == (Lookup(cache[ToDate(t)], c2, t2), later)
  {
    var key := ToDate(t);
    RunExtends(cache, reqs);
    var later := Run(cache, reqs);
    assert key in later && later[key] == cache[key];
    SameFieldsSameKey(t, t2);
    GetHitAt(later, t2, c2, fetch2, cache[key]);
  }

  lemma SameFieldsSameKey(t: Timestamp, t2: Timestamp)
    requires (t2.year, t2.month, t2.day) == (t.year, t.month, t.day)
    ensures ToDate(t2) == ToDate(t)
  {
  }

  lemma GetHitAt(cache: Cache, t: Timestamp, c: Currency, fetch: Oracle, day: DayTable)
    requires ToDate(t) in cache && cache[ToDate(t)] == day
    ensures GetStep(cache, t, c, fetch) == (Lookup(day, c, t), cache)
  {
  }

  /** One call of Get in a run. */
  datatype Request = Request(time: Timestamp, currency: Currency, fetch: Oracle)

  /** The cache after a sequence of Get calls. */
  function Run(cache: Cache, reqs: seq<Request>): Cache
    requires forall i :: 0 <= i < |reqs| ==> Safe(reqs[i].fetch, ToDate(reqs[i].time))
    decreases |reqs|
  {
    if reqs == [] then cache
    else Run(GetStep(cache, reqs[0].time, reqs[0].currency, reqs[0].fetch).1, reqs[1..])
  }

  /** Over any sequence of calls the key set only grows and no stored day
      changes. */
  lemma {:induction false} RunExtends(cache: Cache, reqs: seq<Request>)
    requires forall i :: 0 <= i < |reqs| ==> Safe(reqs[i].fetch, ToDate(reqs[i].time))
    ensures Extends(cache, Run(cache, reqs))
    decreases |reqs|
  {
    if reqs != [] {
      var next := GetStep(cache, reqs[0].time, reqs[0].currency, reqs[0].fetch).1;
      GetExtends(cache, reqs[0].time, reqs[0].currency, reqs[0].fetch);
      assert forall i :: 0 <= i < |reqs| - 1 ==> reqs[1..][i] == reqs[i + 1];
      RunExtends(next, reqs[1..]);
    }
  }

  // ---------------------------------------------------------------------
  // The Exchange object (exchange.go:28-170)

  class Exchange {
    var cache: Cache

    ghost predicate Valid()
      reads this
    {
      WellFormedCache(cache)
    }

    /** NewExchange: an empty cache. */
    constructor ()
      ensures Valid() && cache == map[]
    {
      cache := map[];
    }

    /** Get: the rate of `c` on the date of `t`, filling the cache on a
        miss; one atomic step, as under the mutex. */
    method Get(t: Timestamp, c: Currency, fetch: Oracle) returns (r: Result<ExchangeRate, Error>)
      requires Valid()
      requires ToDate(t) !in cache ==> Safe(fetch, ToDate(t))
      modifies this
      ensures Valid()
      ensures (r, cache) == GetStep(old(cache), t, c, fetch)
    {
      var key := ToDate(t);
      var day: DayTable;
      if key in cache {
        day := cache[key];
      } else {
        var err := Update(t, fetch);
        if err.Some? {
          return Failure(err.value);
        }
        day := cache[key];
      }
      if c !in day {
        return Failure(ErrNotExist(c, t));
      }
      return Success(day[c]);
    }

    /** update: fetch and normalise the day of `t`, storing it only when
        both succeed. */
    method Update(t: Timestamp, fetch: Oracle) returns (err: Option<Error>)
      requires Valid() && Safe(fetch, ToDate(t))
      modifies this
      ensures Valid()
      ensures match Refresh(fetch, ToDate(t))
        case Failure(e) => err == Some(e) && cache == old(cache)
        case Success(day) => err == None && cache == old(cache)[ToDate(t) := day]
    {
      var data, calls := FetchCurrencyData(t, fetch);
      if data.Failure? {
        return Some(data.error);
      }
      var day := NormalizeCurrencyData(data.value);
      if day.Failure? {
        return Some(day.error);
      }
      NormalizeWellFormed(data.value.resources);
      cache := cache[ToDate(t) := day.value];
      return None;
    }

    /** normalizeCurrencyData: the loop over the provider records. */
    method NormalizeCurrencyData(data: Response) returns (r: Result<DayTable, Error>)
      requires NonzeroPrices(data.resources)
      ensures r == Normalize(data.resources)
    {
      var rs := data.resources;
      var table: DayTable := map[];
      var i := 0;
      while i < |rs|
        invariant 0 <= i <= |rs|
        invariant NonzeroPrices(rs[i..])
        invariant NormalizeFrom(table, rs[i..]) == Normalize(rs)
      {
        NormalizeFromNext(table, rs, i);
        var sym := rs[i].symbol;
        if ByteLen(sym) != 5 {
          return Failure(ErrCurrencyLength);
        }
        var cur := ParseHead(sym);
        if cur.Failure? {
          if cur.error == ErrCurrencyUnknown {
            i := i + 1;
            continue;
          }
          return Failure(cur.error);
        }
        var price := rs[i].price;
        if !Decimal.FloatSyntax(price) {
          return Failure(ErrSyntax(price));
        }
        var fromUSD := Decimal.FromString(price);
        if fromUSD.None? {
          return Failure(ErrSyntax(price));
        }
        table := table[cur.value := RateOf(fromUSD.value)];
        i := i + 1;
      }
      return Success(table);
    }

    /** fetchCurrencyData: attempts 1 to 6 of the provider call for the
        day's key; `calls` counts the requests made. */
    method FetchCurrencyData(t: Timestamp, fetch: Oracle) returns (r: Result<Response, Error>, ghost calls: nat)
      ensures r == Fetch(fetch, ToDate(t))
      ensures 1 <= calls <= MaxTries - 1
    {
      var key := ToDate(t);
      var i := 1;
      calls := 0;
      while i < MaxTries
        invariant 1 <= i <= MaxTries
        invariant calls == i - 1
        invariant FetchFrom(fetch, key, i) == Fetch(fetch, key)
      {
        var resp := fetch(key, i);
        calls := calls + 1;
        if resp.Failure? {
          // fetchCurrencyData returns the error when i == maxTries, which
          // the loop condition rules out.
          if i == MaxTries {
            assert false;
          }
        } else if |resp.value.resources| > 0 {
          r := resp;
          return;
        }
        // fetchCurrencyData sleeps when i == maxTries, which is
        // unreachable for the same reason.
        if i == MaxTries {
          assert false;
        }
        i := i + 1;
      }
      r := Failure(ErrFetchingData);
    }
  }
}
