/**
 * The ticker listing parser of the Profiles component: the listing service answers
 * with comma-separated text, a header row and then one row per listed security; the
 * parser finds the column named `symbol` in the header and collects the trimmed
 * value of that column from every data row that has a field at that position.
 */
module TickerListing {
  import opened Wrappers
  import opened Text

  /** Why parsing throws instead of returning. */
  datatype ListingError =
    /** No header field is `symbol`: the column index is -1, `row[-1]` is
        `undefined`, and calling `trim` on it raises a TypeError. */
    MissingSymbolColumn

  const SymbolHeader: string := "symbol"

  /** The rows of a listing body: there is always a header row, no row holds a line
      break, and there is a data row exactly when the body has a line break. */
  function Rows(data: string): (rows: seq<string>)
    ensures |rows| >= 1
    ensures forall i :: 0 <= i < |rows| ==> '\n' !in rows[i]
    ensures |rows| > 1 <==> '\n' in data
  {
    SplitMany(data, '\n');
    Split(data, '\n')
  }

  /** The comma-separated fields of one row: at least one, and none holding a comma. */
  function Fields(row: string): (fields: seq<string>)
    ensures |fields| >= 1
    ensures forall i :: 0 <= i < |fields| ==> ',' !in fields[i]
  {
    Split(row, ',')
  }

  /** Every row split into its fields. */
  function Table(rows: seq<string>): (table: seq<seq<string>>)
    ensures |table| == |rows|
    ensures forall i :: 0 <= i < |rows| ==> table[i] == Fields(rows[i])
  {
    seq(|rows|, i requires 0 <= i < |rows| => Fields(rows[i]))
  }

  /** The position of the first header field that is exactly `symbol`, or -1 when
      there is none. */
  function SymbolIndex(header: string): (k: int)
    ensures -1 <= k < |Fields(header)|
    ensures k == -1 <==> SymbolHeader !in Fields(header)
    ensures 0 <= k ==> Fields(header)[k] == SymbolHeader && SymbolHeader !in Fields(header)[..k]
  {
    IndexOf(Fields(header), SymbolHeader)
  }

  /** What one data row, given by its fields, adds to the result when the symbol
      column is `k`: its symbol field, trimmed, when it has one, and nothing otherwise. */
  function Contribution(fields: seq<string>, k: nat): (symbols: seq<string>)
    ensures |symbols| <= 1
    ensures |symbols| == 1 <==> k < |fields|
    ensures |symbols| == 1 ==> symbols[0] == Trim(fields[k]) && IsTrimmed(symbols[0])
  {
    if |fields| > k then [Trim(fields[k])] else []
  }

  /** The symbols collected from the rows of `table`, in row order, for symbol column
      `k`; none of them starts or ends with white space. */
  function Collect(table: seq<seq<string>>, k: nat): (symbols: seq<string>)
    ensures forall j :: 0 <= j < |symbols| ==> IsTrimmed(symbols[j])
  {
    if table == [] then []
    else Contribution(table[0], k) + Collect(table[1..], k)
  }

  /**
   * The outcome of parsing a listing body: the symbols, or the error raised. It is
   * an error exactly when the header has no `symbol` field and a data row follows.
   */
  function TickerSymbols(data: string): (r: Result<seq<string>, ListingError>)
    ensures r.Err? <==> SymbolIndex(Rows(data)[0]) == -1 && |Rows(data)| > 1
  {
    var rows := Rows(data);
    var k := SymbolIndex(rows[0]);
    if k >= 0 then Ok(Collect(Table(rows[1..]), k))
    else if |rows| > 1 then Err(MissingSymbolColumn)
    else Ok([])
  }

  /**
   * `parseTickerSymbols`: one pass over the data rows, pushing the trimmed symbol
   * field of each row that has a field at the symbol position.
   */
  method ParseTickerSymbols(data: string) returns (result: Result<seq<string>, ListingError>)
    ensures result == TickerSymbols(data)
  {
    var tickerSymbols: seq<string> := [];
    var rows := Rows(data);
    var headers := Fields(rows[0]);
    var symbolIndex := IndexOf(headers, SymbolHeader);
    var i := 1;
    while i < |rows|
      invariant 1 <= i <= |rows|
      invariant symbolIndex < 0 ==> i == 1 && tickerSymbols == []
      invariant symbolIndex >= 0 ==> tickerSymbols == Collect(Table(rows[1..i]), symbolIndex)
    {
      var row := Fields(rows[i]);
      assert Table(rows[1..i + 1]) == Table(rows[1..i]) + [row];
      if |row| > symbolIndex {
        if symbolIndex < 0 {
          // row[-1] is undefined and the call to trim throws
          return Err(MissingSymbolColumn);
        }
        var ticker := Trim(row[symbolIndex]);
        CollectSnoc(Table(rows[1..i]), row, symbolIndex);
        tickerSymbols := tickerSymbols + [ticker];
      } else {
        CollectSnoc(Table(rows[1..i]), row, symbolIndex);
      }
      i := i + 1;
    }
    assert rows[1..i] == rows[1..];
    return Ok(tickerSymbols);
  }

  /** Collecting over two runs of rows is collecting over each, in order. */
  lemma {:induction false} CollectAppend(a: seq<seq<string>>, b: seq<seq<string>>, k: nat)
    ensures Collect(a + b, k) == Collect(a, k) + Collect(b, k)
  {
    if a == [] {
      assert a + b == b;
    } else {
      assert (a + b)[1..] == a[1..] + b;
      CollectAppend(a[1..], b, k);
    }
  }

  /** Adding one row at the end adds its contribution at the end. */
  lemma CollectSnoc(table: seq<seq<string>>, fields: seq<string>, k: nat)
    ensures Collect(table + [fields], k) == Collect(table, k) + Contribution(fields, k)
  {
    CollectAppend(table, [fields], k);
    assert [fields][1..] == [];
  }

  /**
   * Row `i` contributes exactly its symbol field, trimmed, when it has more than `k`
   * fields and nothing otherwise, between what the rows before it and the rows after
   * it contribute.
   */
  lemma RowContribution(table: seq<seq<string>>, k: nat, i: nat)
    requires i < |table|
    ensures Collect(table, k) ==
      Collect(table[..i], k) +
      (if |table[i]| > k then [Trim(table[i][k])] else []) +
      Collect(table[i + 1..], k)
  {
    assert table == table[..i] + ([table[i]] + table[i + 1..]);
    CollectAppend(table[..i], [table[i]] + table[i + 1..], k);
    assert ([table[i]] + table[i + 1..])[1..] == table[i + 1..];
  }

  /**
   * The symbol of a long enough row `i` sits in the result right after the symbols
   * of the rows before it: row order is preserved.
   */
  lemma CollectAt(table: seq<seq<string>>, k: nat, i: nat)
    requires i < |table| && |table[i]| > k
    ensures |Collect(table[..i], k)| < |Collect(table, k)|
    ensures Collect(table, k)[|Collect(table[..i], k)|] == Trim(table[i][k])
  {
    RowContribution(table, k, i);
  }

  /** Every row contributes at most one symbol, and all of them contribute one
      exactly when every row has more than `k` fields. */
  lemma {:induction false} CollectLength(table: seq<seq<string>>, k: nat)
    ensures |Collect(table, k)| <= |table|
    ensures |Collect(table, k)| == |table| <==> forall i :: 0 <= i < |table| ==> |table[i]| > k
  {
    if table != [] {
      var tail := table[1..];
      CollectLength(tail, k);
      assert forall i :: 0 <= i < |tail| ==> tail[i] == table[i + 1];
    }
  }

  /**
   * With the symbol in the first column no data row is skipped, not even an empty
   * one: every row has at least one field.
   */
  lemma FirstColumnKeepsEveryRow(rows: seq<string>)
    ensures |Collect(Table(rows), 0)| == |rows|
    ensures forall i :: 0 <= i < |rows| ==> Collect(Table(rows), 0)[i] == Trim(Fields(rows[i])[0])
  {
    var table := Table(rows);
    CollectLength(table, 0);
    forall i | 0 <= i < |rows|
      ensures Collect(table, 0)[i] == Trim(Fields(rows[i])[0])
    {
      CollectAt(table, 0, i);
      CollectLength(table[..i], 0);
    }
  }

  /**
   * Parsing fails exactly when no header field is `symbol` and there is at least
   * one data row, that is, the body contains a line break.
   */
  lemma ParseFails(data: string)
    ensures TickerSymbols(data).Err? <==> SymbolHeader !in Fields(Rows(data)[0]) && '\n' in data
  {
    SplitMany(data, '\n');
  }

  /**
   * The header row never yields a symbol: the result depends on the header only
   * through the position of its `symbol` field, and the symbols come from the rows
   * after it.
   */
  lemma HeaderNotCollected(header: string, body: string)
    requires '\n' !in header
    ensures TickerSymbols(header + "\n" + body) ==
      if SymbolIndex(header) >= 0 then Ok(Collect(Table(Rows(body)), SymbolIndex(header)))
      else Err(MissingSymbolColumn)
  {
    SplitAtFirstSeparator(header, '\n', body);
    assert header + "\n" + body == header + ['\n'] + body;
  }

  /** A successful parse yields no more symbols than there are data rows, each of them trimmed. */
  lemma ParseBound(data: string)
    ensures TickerSymbols(data).Ok? ==>
      |TickerSymbols(data).value| <= |Rows(data)| - 1 &&
      forall j :: 0 <= j < |TickerSymbols(data).value| ==> IsTrimmed(TickerSymbols(data).value[j])
  {
    var rows := Rows(data);
    var k := SymbolIndex(rows[0]);
    if k >= 0 {
      CollectLength(Table(rows[1..]), k);
    }
  }

  /**
   * A short row is kept as long as it reaches the symbol column: under the header
   * `symbol,name` the one-field row `BB` still yields `BB`.
   */
  lemma {:induction false} ShortRowKept(header: string, body: string)
    requires header == "symbol,name" && body == "AAA,Acme\nBB"
    ensures TickerSymbols(header + "\n" + body) == Ok(["AAA", "BB"])
  {
    var rows := Rows(body);
    assert rows == ["AAA,Acme", "BB"] by { ExampleRows(); }
    assert TickerSymbols(header + "\n" + body) == Ok(Collect(Table(rows), 0)) by {
      ExampleHeader();
      HeaderNotCollected(header, body);
    }
    assert Table(rows) == [["AAA", "Acme"], ["BB"]] by { ExampleFields(); }
    assert Collect(Table(rows), 0) == ["AAA", "BB"] by { ExampleCollect(); }
  }

  lemma ExampleHeader()
    ensures SymbolIndex("symbol,name") == 0
    ensures '\n' !in "symbol,name"
  {
    var header := "symbol,name";
    assert forall i :: 0 <= i < |header| ==> header[i] != '\n';
    assert "symbol,name" == "symbol" + [','] + "name";
    SplitAtFirstSeparator("symbol", ',', "name");
    SplitWithoutSeparator("name", ',');
  }

  lemma ExampleRows()
    ensures Rows("AAA,Acme\nBB") == ["AAA,Acme", "BB"]
  {
    assert "AAA,Acme\nBB" == "AAA,Acme" + ['\n'] + "BB";
    SplitAtFirstSeparator("AAA,Acme", '\n', "BB");
    SplitWithoutSeparator("BB", '\n');
  }

  lemma ExampleFields()
    ensures Fields("AAA,Acme") == ["AAA", "Acme"]
    ensures Fields("BB") == ["BB"]
  {
    assert "AAA,Acme" == "AAA" + [','] + "Acme";
    SplitAtFirstSeparator("AAA", ',', "Acme");
    SplitWithoutSeparator("Acme", ',');
    SplitWithoutSeparator("BB", ',');
  }

  lemma ExampleCollect()
    ensures Collect([["AAA", "Acme"], ["BB"]], 0) == ["AAA", "BB"]
  {
    var table := [["AAA", "Acme"], ["BB"]];
    assert table[1..] == [["BB"]];
    assert table[1..][1..] == [];
    TrimTrimmed("AAA");
    TrimTrimmed("BB");
  }
}
