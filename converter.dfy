/** The flat EUR converter of currency.go: a table from currency to its EUR
    rate, replaced as a whole by `Update` from a CSV quote download, and
    read by the `Convert*` family. The HTTP request and CSV decoding
    (`readCSVFromUrl`) are an oracle from the query URL to the decoded rows
    or an error. The mutex is not modelled; each member is one atomic step. */
module CurrencyConverter {
  import opened Wrappers
  import opened Calendar
  import opened Currencies
  import opened Utf8
  import Decimal
  import Digits

  /** One decoded CSV record. */
  type Row = seq<string>

  /** The quote download: the decoded rows served for a URL, or an error. */
  type CsvSource = string -> Result<seq<Row>, Error>

  const QueryPrefix: string := "http://download.finance.yahoo.com/d/quotes.csv?f=snl1d1t1ab&s="

  /** The quote symbol requested for one currency. */
  function Entry(c: Currency): string {
    c + "EUR=X"
  }

  /** The comma-separated symbol list for `codes`, in order. */
  function QueryList(codes: seq<Currency>): string
    requires |codes| > 0
    decreases |codes|
  {
    if |codes| == 1 then Entry(codes[0])
    else QueryList(codes[..|codes| - 1]) + "," + Entry(codes[|codes| - 1])
  }

  function QueryUrl(codes: seq<Currency>): string
    requires |codes| > 0
  {
    QueryPrefix + QueryList(codes)
  }

  predicate AllThreeLong(codes: seq<Currency>) {
    forall i :: 0 <= i < |codes| ==> |codes[i]| == 3
  }

  lemma {:induction false} QueryListShape(codes: seq<Currency>, i: nat)
    requires |codes| > 0 && AllThreeLong(codes) && i < |codes|
    ensures |QueryList(codes)| == 9 * |codes| - 1
    ensures QueryList(codes)[9 * i .. 9 * i + 8] == Entry(codes[i])
    ensures i > 0 ==> QueryList(codes)[9 * i - 1] == ','
    decreases |codes|
  {
    var n := |codes|;
    if n > 1 {
      var init := codes[..n - 1];
      assert AllThreeLong(init) by { assert forall j :: 0 <= j < n - 1 ==> init[j] == codes[j]; }
      var s := QueryList(init);
      QueryListShape(init, if i < n - 1 then i else 0);
      assert QueryList(codes) == s + "," + Entry(codes[n - 1]);
      if i < n - 1 {
        assert init[i] == codes[i];
        assert QueryList(codes)[9 * i .. 9 * i + 8] == s[9 * i .. 9 * i + 8];
        if i > 0 {
          assert QueryList(codes)[9 * i - 1] == s[9 * i - 1];
        }
      } else {
        assert QueryList(codes)[9 * i .. 9 * i + 8] == Entry(codes[i]);
      }
    }
  }

  /** The URL is the 62-character prefix followed by the entries
      `XXXEUR=X` for every code in order, separated by commas: entry i
      starts at 62 + 9i, a comma precedes every entry but the first, and the
      whole is 62 + 9n - 1 characters long. */
  lemma QueryUrlShape(codes: seq<Currency>, i: nat)
    requires |codes| > 0 && AllThreeLong(codes) && i < |codes|
    ensures |QueryPrefix| == 62
    ensures |QueryUrl(codes)| == 62 + 9 * |codes| - 1
    ensures QueryUrl(codes)[..62] == QueryPrefix
    ensures QueryUrl(codes)[62 + 9 * i .. 62 + 9 * i + 8] == Entry(codes[i])
    ensures i > 0 ==> QueryUrl(codes)[62 + 9 * i - 1] == ','
  {
    QueryListShape(codes, i);
    var l := QueryList(codes);
    assert QueryUrl(codes)[62 + 9 * i .. 62 + 9 * i + 8] == l[9 * i .. 9 * i + 8];
  }

  /** The currency a record is filed under: the first three bytes of a
      column 0 that is eight bytes long. A column 0 whose third byte ends
      inside a character has a Go key that is not valid UTF-8; no currency
      of this model (a sequence of characters) can name it, so the model
      drops that record. */
  function Key(row: Row): Option<Currency>
    requires |row| >= 3
  {
    if ByteLen(row[0]) == 8 then BytePrefix(row[0], 3) else None
  }

  /** For an ASCII column 0 the key is its first three characters, and
      exists exactly when the column has eight characters. */
  lemma KeyOfAscii(row: Row)
    requires |row| >= 3 && IsAscii(row[0])
    ensures Key(row).Some? <==> |row[0]| == 8
    ensures |row[0]| == 8 ==> Key(row) == Some(row[0][..3])
  {
    AsciiByteLen(row[0]);
    if |row[0]| == 8 {
      assert IsAscii(row[0][..3]) by {
        assert forall i :: 0 <= i < 3 ==> row[0][..3][i] == row[0][i];
      }
      BytePrefixSpec(row[0], 3);
    }
  }

  /** A record the parse loop keeps: column 2 passes ParseFloat and
      NewFromString, and column 0 has a key. */
  predicate Keeps(row: Row)
    requires |row| >= 3
  {
    Decimal.Parse(row[2]).Some? && Key(row).Some?
  }

  /** Go's `row[2]` panics on a shorter record. */
  predicate WideRows(rows: seq<Row>) {
    forall i :: 0 <= i < |rows| ==> |rows[i]| >= 3
  }

  /** The parse loop from table `ex` over the remaining rows. */
  function RatesFrom(ex: map<Currency, real>, rows: seq<Row>): map<Currency, real>
    requires WideRows(rows)
    decreases rows
  {
    if rows == [] then ex
    else
      RatesFrom(Step(ex, rows[0]), rows[1..])
  }

  function Rates(rows: seq<Row>): map<Currency, real>
    requires WideRows(rows)
  {
    RatesFrom(map[], rows)
  }

  /** Row `row` is kept and stores its rate under `k`. */
  predicate Names(row: Row, k: Currency)
    requires |row| >= 3
  {
    Keeps(row) && Key(row).value == k
  }

  predicate Named(rows: seq<Row>, k: Currency)
    requires WideRows(rows)
  {
    exists i :: 0 <= i < |rows| && Names(rows[i], k)
  }

  lemma NamedCons(rows: seq<Row>, k: Currency)
    requires WideRows(rows) && rows != []
    ensures WideRows(rows[1..])
    ensures Named(rows, k) <==> Names(rows[0], k) || Named(rows[1..], k)
  {
    assert forall j :: 0 <= j < |rows| - 1 ==> rows[1..][j] == rows[j + 1];
    if Named(rows, k) {
      var i :| 0 <= i < |rows| && Names(rows[i], k);
      if i > 0 { assert rows[1..][i - 1] == rows[i]; }
    }
  }

  /** One step of the parse loop. */
  function Step(ex: map<Currency, real>, row: Row): map<Currency, real>
    requires |row| >= 3
  {
    if Keeps(row) then ex[Key(row).value := Decimal.Parse(row[2]).value] else ex
  }

  lemma StepStores(ex: map<Currency, real>, row: Row)
    requires |row| >= 3 && Keeps(row)
    ensures Key(row).value in Step(ex, row)
    ensures Step(ex, row)[Key(row).value] == Decimal.Parse(row[2]).value
  {
  }

  lemma RatesFromNext(ex: map<Currency, real>, rows: seq<Row>, i: nat)
    requires WideRows(rows) && i < |rows|
    ensures WideRows(rows[i + 1..])
    ensures RatesFrom(ex, rows[i..]) == RatesFrom(Step(ex, rows[i]), rows[i + 1..])
  {
    assert rows[i..][0] == rows[i] && rows[i..][1..] == rows[i + 1..];
  }

  lemma {:induction false} RatesFromKeys(ex: map<Currency, real>, rows: seq<Row>, k: Currency)
    requires WideRows(rows)
    ensures k in RatesFrom(ex, rows) <==> k in ex || Named(rows, k)
    decreases rows
  {
    if rows != [] {
      NamedCons(rows, k);
      RatesFromKeys(Step(ex, rows[0]), rows[1..], k);
    }
  }

  /** The table's keys are exactly the first three bytes of column 0 of
      the rows that are kept; rows with a non-numeric column 2 or a column 0
      not eight bytes long leave no trace. */
  lemma RatesKeys(rows: seq<Row>, k: Currency)
    requires WideRows(rows)
    ensures k in Rates(rows) <==> Named(rows, k)
  {
    RatesFromKeys(map[], rows, k);
  }

  lemma {:induction false} RatesFromUntouched(ex: map<Currency, real>, rows: seq<Row>, k: Currency)
    requires WideRows(rows) && k in ex && !Named(rows, k)
    ensures k in RatesFrom(ex, rows) && RatesFrom(ex, rows)[k] == ex[k]
    decreases rows
  {
    if rows != [] {
      NamedCons(rows, k);
      RatesFromUntouched(Step(ex, rows[0]), rows[1..], k);
    }
  }

  lemma {:induction false} RatesFromLastWins(ex: map<Currency, real>, rows: seq<Row>, i: nat, k: Currency)
    requires WideRows(rows) && i < |rows| && Names(rows[i], k)
    requires !Named(rows[i + 1..], k)
    ensures k in RatesFrom(ex, rows)
    ensures RatesFrom(ex, rows)[k] == Decimal.Parse(rows[i][2]).value
    decreases rows
  {
    RatesFromNext(ex, rows, 0);
    assert rows[0..] == rows;
    var r := rows[1..];
    if i == 0 {
      assert r == rows[i + 1..];
      StepStores(ex, rows[0]);
      RatesFromUntouched(Step(ex, rows[0]), r, k);
    } else {
      assert r[i - 1] == rows[i] && r[i..] == rows[i + 1..];
      RatesFromLastWins(Step(ex, rows[0]), r, i - 1, k);
    }
  }

  /** A later kept row for the same currency overwrites an earlier one: the
      stored rate is that of the last kept row naming it. */
  lemma RatesLastWins(rows: seq<Row>, i: nat)
    requires WideRows(rows) && i < |rows| && Keeps(rows[i])
    requires !Named(rows[i + 1..], Key(rows[i]).value)
    ensures Key(rows[i]).value in Rates(rows)
    ensures Rates(rows)[Key(rows[i]).value] == Decimal.Parse(rows[i][2]).value
  {
    RatesFromLastWins(map[], rows, i, Key(rows[i]).value);
  }

  /** Dropping a row keeps every row wide. */
  lemma WideRowsSkip(p: seq<Row>, row: Row, q: seq<Row>)
    requires WideRows(p + [row] + q)
    ensures WideRows(p + q)
  {
    var s, s' := p + [row] + q, p + q;
    forall j | 0 <= j < |s'| ensures |s'[j]| >= 3 {
      if j < |p| { assert s'[j] == s[j]; } else { assert s'[j] == s[j + 1]; }
    }
  }

  lemma {:induction false} RatesFromSkips(ex: map<Currency, real>, p: seq<Row>, row: Row, q: seq<Row>)
    requires WideRows(p + [row] + q) && |row| >= 3 && !Keeps(row)
    ensures WideRows(p + q)
    ensures RatesFrom(ex, p + [row] + q) == RatesFrom(ex, p + q)
    decreases p
  {
    WideRowsSkip(p, row, q);
    if p == [] {
      assert p + [row] + q == [row] + q;
      assert ([row] + q)[1..] == q;
      assert p + q == q;
    } else {
      var s, s' := p + [row] + q, p + q;
      assert s[0] == p[0] && s'[0] == p[0];
      assert s[1..] == p[1..] + [row] + q;
      assert s'[1..] == p[1..] + q;
      assert WideRows(s[1..]) by { assert forall j :: 0 <= j < |s| - 1 ==> s[1..][j] == s[j + 1]; }
      assert WideRows(s'[1..]) by { assert forall j :: 0 <= j < |s'| - 1 ==> s'[1..][j] == s'[j + 1]; }
      RatesFromSkips(Step(ex, p[0]), p[1..], row, q);
    }
  }

  /** A row that is not kept (column 2 not numeric, or column 0 not eight
      bytes long) is skipped: the table is as if it were not there. */
  lemma RatesSkips(p: seq<Row>, row: Row, q: seq<Row>)
    requires WideRows(p + [row] + q) && |row| >= 3 && !Keeps(row)
    ensures WideRows(p + q)
    ensures Rates(p + [row] + q) == Rates(p + q)
  {
    RatesFromSkips(map[], p, row, q);
  }

  class Converter {
    var ex: map<Currency, real>

    /** New: an empty table (Go's nil map reads as empty). */
    constructor ()
      ensures ex == map[]
    {
      ex := map[];
    }

    /** genConvert: only EUR targets are served; an unknown source gives
        zero; otherwise the amount times the source's rate. The time is not
        used. */
    function GenConvert(value: real, from: Currency, to: Currency, at: Option<Timestamp>): real
      reads this
    {
      if to != EUR then 0.0
      else if from !in ex then 0.0
      else value * ex[from]
    }

    function Convert(value: real, from: Currency, to: Currency): real
      reads this
    {
      GenConvert(value, from, to, None)
    }

    function ConvertAt(value: real, from: Currency, to: Currency, at: Timestamp): real
      reads this
    {
      GenConvert(value, from, to, Some(at))
    }

    /** The literal is read by NewFromString alone and its error is
        discarded: an unreadable literal is the zero amount. */
    function ConvertString(value: string, from: Currency, to: Currency): real
      reads this
    {
      GenConvert(Decimal.FromString(value).GetOr(0.0), from, to, None)
    }

    function ConvertStringAt(value: string, from: Currency, to: Currency, at: Timestamp): real
      reads this
    {
      GenConvert(Decimal.FromString(value).GetOr(0.0), from, to, Some(at))
    }

    /** Update: request every known code, then swap in the table parsed from
        the answer; on a download error the old table stays. */
    method Update(csv: CsvSource) returns (err: Option<Error>)
      requires csv(QueryUrl(Codes)).Success? ==> WideRows(csv(QueryUrl(Codes)).value)
      modifies this
      ensures match csv(QueryUrl(Codes))
        case Failure(e) => err == Some(e) && ex == old(ex)
        case Success(rows) => err == None && ex == Rates(rows)
    {
      CodesWellFormed();
      var url := BuildQueryUrl(Codes);
      var res := csv(url);
      if res.Failure? {
        return Some(res.error);
      }
      var table := ParseRates(res.value);
      ex := table;
      return None;
    }

    /** The URL construction of Update. */
    method BuildQueryUrl(codes: seq<Currency>) returns (url: string)
      requires |codes| > 0
      ensures url == QueryUrl(codes)
    {
      url := QueryPrefix;
      url := url + (codes[0] + "EUR" + "=X");
      var i := 1;
      while i < |codes|
        invariant 1 <= i <= |codes|
        invariant url == QueryUrl(codes[..i])
      {
        assert codes[..i + 1][..i] == codes[..i];
        url := url + ("," + codes[i] + "EUR=X");
        i := i + 1;
      }
      assert codes[..|codes|] == codes;
    }

    /** The row-parsing loop of Update. */
    method ParseRates(rows: seq<Row>) returns (table: map<Currency, real>)
      requires WideRows(rows)
      ensures table == Rates(rows)
    {
      table := map[];
      var i := 0;
      while i < |rows|
        invariant 0 <= i <= |rows|
        invariant WideRows(rows[i..])
        invariant RatesFrom(table, rows[i..]) == Rates(rows)
      {
        var row := rows[i];
        RatesFromNext(table, rows, i);
        var v := row[2];
        if !Decimal.FloatSyntax(v) {
          i := i + 1;
          continue;
        }
        var rate := Decimal.FromString(v);
        if rate.None? {
          i := i + 1;
          continue;
        }
        v := row[0];
        if ByteLen(v) != 8 {
          i := i + 1;
          continue;
        }
        var cur := BytePrefix(v, 3);
        if cur.None? {
          i := i + 1;
          continue;
        }
        table := table[cur.value := rate.value];
        i := i + 1;
      }
    }
  }

  /** A non-EUR target converts to zero whatever the table holds. */
  lemma NonEurTargetIsZero(c1: Converter, c2: Converter, value: real, from: Currency, to: Currency, at: Option<Timestamp>)
    requires to != EUR
    ensures c1.GenConvert(value, from, to, at) == 0.0
    ensures c1.GenConvert(value, from, to, at) == c2.GenConvert(value, from, to, at)
  {
  }

  /** A source without a table entry converts to zero. */
  lemma UnknownSourceIsZero(c: Converter, value: real, from: Currency, at: Option<Timestamp>)
    requires from !in c.ex
    ensures c.GenConvert(value, from, EUR, at) == 0.0
  {
  }

  /** Otherwise the result is exactly the amount times the source's rate. */
  lemma ConvertMultiplies(c: Converter, value: real, from: Currency, at: Option<Timestamp>)
    requires from in c.ex
    ensures c.GenConvert(value, from, EUR, at) == value * c.ex[from]
  {
  }

  /** Conversion is linear in the amount; in particular zero converts to
      zero. */
  lemma ConvertLinear(c: Converter, a: real, b: real, k: real, from: Currency, to: Currency, at: Option<Timestamp>)
    ensures c.GenConvert(a + b, from, to, at) == c.GenConvert(a, from, to, at) + c.GenConvert(b, from, to, at)
    ensures c.GenConvert(k * a, from, to, at) == k * c.GenConvert(a, from, to, at)
    ensures c.GenConvert(0.0, from, to, at) == 0.0
  {
  }

  /** The time argument has no effect: ConvertAt and ConvertStringAt agree
      with their undated forms. */
  lemma TimeIsIgnored(c: Converter, value: real, literal: string, from: Currency, to: Currency, at: Timestamp)
    ensures c.ConvertAt(value, from, to, at) == c.Convert(value, from, to)
    ensures c.ConvertStringAt(literal, from, to, at) == c.ConvertString(literal, from, to)
  {
  }

  /** An unreadable literal converts as the zero amount, so to zero. */
  lemma UnparseableLiteralIsZero(c: Converter, literal: string, from: Currency, to: Currency, at: Timestamp)
    requires Decimal.FromString(literal).None?
    ensures c.ConvertString(literal, from, to) == 0.0
    ensures c.ConvertStringAt(literal, from, to, at) == 0.0
  {
  }

  /** A literal converts as the amount it denotes: whole numbers and
      fixed-point literals such as "1.0000"; a fraction longer than the
      int32 exponent range allows makes the literal unreadable, so zero. */
  lemma LiteralConvertsAsItsValue(c: Converter, n: nat, w: string, f: string, from: Currency, to: Currency)
    requires Digits.AllDigits(w) && Digits.AllDigits(f) && |w| + |f| >= 1
    ensures c.ConvertString(Digits.ToDigits(n), from, to) == c.Convert(n as real, from, to)
    ensures c.ConvertString(w + "." + f, from, to) ==
      if |f| <= 0x8000_0000 then c.Convert(Digits.Value(w + f) as real / (Digits.Pow10(|f|) as real), from, to)
      else c.Convert(0.0, from, to)
  {
    Decimal.ParseToDigits(n);
    Decimal.FromStringFixedPoint(w, f);
  }

  /** The string forms accept what NewFromString accepts, which is more
      than ParseFloat: ".-5" converts as -0.05. */
  lemma SignAfterPointConverts(c: Converter, from: Currency, to: Currency)
    ensures c.ConvertString(".-5", from, to) == c.Convert(-0.05, from, to)
  {
    Decimal.SignAfterPoint();
  }

  /** Codes of three letters give a URL of 62 + 9n - 1 characters, the
      capacity Update reserves. */
  lemma QueryUrlLength(codes: seq<Currency>)
    requires |codes| > 0 && forall c :: c in codes ==> IsCode(c)
    ensures |QueryUrl(codes)| == 62 + 9 * |codes| - 1
  {
    assert AllThreeLong(codes) by {
      forall i | 0 <= i < |codes| ensures |codes[i]| == 3 {
        assert codes[i] in codes;
      }
    }
    QueryUrlShape(codes, 0);
  }

  /** The query for the known codes is 62 + 9 * 162 - 1 = 1519 characters. */
  lemma CodesQueryUrlLength()
    ensures |QueryUrl(Codes)| == 1519
  {
    CodesWellFormed();
    QueryUrlLength(Codes);
  }}
