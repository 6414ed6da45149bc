/** The CSV import into the `sales` table: cleaning of currency and date cells, the
    column types and CREATE TABLE text inferred from the first file's header, and the
    loop that appends every file's de-duplicated, cleaned rows. */
module CsvToSqlite {
  import opened Wrappers
  import opened Text
  import opened Seqs

  /** A cell of a parsed CSV frame: a string, a number, or the missing value (NaN, None). */
  datatype Cell = Str(s: string) | Number(x: real) | Missing

  // ---------------------------------------------------------------------------
  // clean_currency

  /** `s.replace(c, '')`: every occurrence of `c` removed, the rest kept in order. */
  function Strip(s: string, c: char): (r: string)
    ensures c !in r
  {
    if s == [] then []
    else if s[0] == c then Strip(s[1..], c)
    else [s[0]] + Strip(s[1..], c)
  }

  /** What remains are the other characters of the text. */
  lemma {:induction false} StripMembers(s: string, c: char)
    ensures forall x :: x in Strip(s, c) <==> x in s && x != c
  {
    if s != [] {
      StripMembers(s[1..], c);
      assert forall x :: x in s <==> x == s[0] || x in s[1..];
    }
  }

  lemma {:induction false} StripAppend(a: string, b: string, c: char)
    ensures Strip(a + b, c) == Strip(a, c) + Strip(b, c)
  {
    if a != [] {
      assert (a + b)[0] == a[0] && (a + b)[1..] == a[1..] + b;
      StripAppend(a[1..], b, c);
    } else {
      assert a + b == b;
    }
  }

  lemma {:induction false} StripAbsent(s: string, c: char)
    requires c !in s
    ensures Strip(s, c) == s
  {
    if s != [] {
      assert s[0] != c;
      assert forall x :: x in s[1..] ==> x in s;
      StripAbsent(s[1..], c);
      assert [s[0]] + s[1..] == s;
    }
  }

  function Pow10(n: nat): (p: nat)
    ensures p >= 1
  {
    if n == 0 then 1 else 10 * Pow10(n - 1)
  }

  /** The number "<whole>.<fraction>" denotes, when both parts are digits and not both empty. */
  function PartsValue(whole: string, fraction: string): Option<real> {
    if AllDigits(whole) && AllDigits(fraction) && |whole| + |fraction| > 0 then
      Some(DigitsValue(whole) as real + DigitsValue(fraction) as real / Pow10(|fraction|) as real)
    else None
  }

  /** The unsigned decimals `float()` accepts: digits, optionally a point and more
      digits, with at least one digit in all. */
  function UnsignedDecimal(s: string): Option<real> {
    var parts := Split(s, '.');
    if |parts| == 1 then PartsValue(parts[0], "")
    else if |parts| == 2 then PartsValue(parts[0], parts[1])
    else None
  }

  /** `float(s)` on the decimal subset: an optional sign, then an unsigned decimal. */
  function DecimalValue(s: string): Option<real> {
    if |s| > 0 && (s[0] == '-' || s[0] == '+') then
      match UnsignedDecimal(s[1..])
      case None => None
      case Some(x) => Some(if s[0] == '-' then -x else x)
    else UnsignedDecimal(s)
  }

  /** `clean_currency`: a string loses every '$' and ',' and is read as a number, 0.0 when
      that fails; any other value is returned as it is. */
  function CleanCurrency(v: Cell): (r: Cell)
    ensures v.Str? ==> r.Number?
    ensures !v.Str? ==> r == v
  {
    match v
    case Str(s) => Number(DecimalValue(Strip(Strip(s, '$'), ',')).GetOr(0.0))
    case _ => v
  }

  /** Where the '$' and ',' signs stand does not matter, only what remains without them. */
  lemma CleanCurrencyIgnoresSigns(s: string, t: string)
    requires Strip(Strip(s, '$'), ',') == Strip(Strip(t, '$'), ',')
    ensures CleanCurrency(Str(s)) == CleanCurrency(Str(t))
  {
  }

  /** Cleaning twice is cleaning once. */
  lemma CleanCurrencyIdempotent(v: Cell)
    ensures CleanCurrency(CleanCurrency(v)) == CleanCurrency(v)
  {
  }

  /** A string with no decimal left after removing the signs becomes 0.0. */
  lemma CleanCurrencyUnparsable(s: string)
    requires DecimalValue(Strip(Strip(s, '$'), ',')).None?
    ensures CleanCurrency(Str(s)) == Number(0.0)
  {
  }

  /** Two decimal digits, with a leading zero under ten. */
  function TwoDigits(n: nat): (r: string)
    requires n < 100
    ensures |r| == 2 && AllDigits(r)
  {
    [DigitChar(n / 10), DigitChar(n % 10)]
  }

  lemma UnsignedDecimalOfParts(whole: string, fraction: string)
    requires AllDigits(whole) && AllDigits(fraction) && |whole| > 0
    ensures UnsignedDecimal(whole + "." + fraction) == PartsValue(whole, fraction)
  {
    var s := whole + ['.'] + fraction;
    assert '.' !in whole && '.' !in fraction;
    SplitAppend(whole, '.', fraction);
    SplitNoSeparator(fraction, '.');
    assert Split(s, '.') == [whole, fraction];
    assert whole + "." + fraction == s;
  }

  lemma TwoDigitsValue(n: nat)
    requires n < 100
    ensures DigitsValue(TwoDigits(n)) == n
  {
    var c := TwoDigits(n);
    assert c[..1][..0] == [];
    assert DigitsValue(c[..1]) == n / 10;
  }

  lemma StripLeading(c: char, t: string)
    requires c !in t
    ensures Strip([c] + t, c) == t
  {
    assert ([c] + t)[1..] == t;
    StripAbsent(t, c);
  }

  /** Removing the signs from "$<digits>.<digits>" leaves "<digits>.<digits>". */
  lemma StripRendered(n: string, c: string)
    requires AllDigits(n) && AllDigits(c)
    ensures Strip(Strip("$" + n + "." + c, '$'), ',') == n + "." + c
  {
    var t := n + "." + c;
    forall x | x in t ensures x == '.' || IsDigit(x) {
      var k :| 0 <= k < |t| && t[k] == x;
      if k < |n| {
        assert t[k] == n[k];
      } else if k > |n| {
        assert t[k] == c[k - |n| - 1];
      }
    }
    assert "$" + n + "." + c == ['$'] + t;
    StripLeading('$', t);
    StripAbsent(t, ',');
  }

  lemma DecimalOfParts(whole: string, fraction: string)
    requires AllDigits(whole) && AllDigits(fraction) && |whole| > 0
    ensures DecimalValue(whole + "." + fraction) == PartsValue(whole, fraction)
  {
    var u := whole + "." + fraction;
    UnsignedDecimalOfParts(whole, fraction);
    assert u[0] == whole[0] && IsDigit(u[0]);
  }

  lemma CleanCurrencyOfStripped(s: string, u: string)
    requires Strip(Strip(s, '$'), ',') == u
    ensures CleanCurrency(Str(s)) == Number(DecimalValue(u).GetOr(0.0))
  {
  }

  /** Cleaning undoes rendering: a dollar amount written as "$<units>.<cents>" is read
      back as units + cents / 100. */
  lemma CleanCurrencyOfRendered(units: nat, cents: nat)
    requires cents < 100
    ensures CleanCurrency(Str("$" + NatToString(units) + "." + TwoDigits(cents)))
      == Number(units as real + cents as real / 100.0)
  {
    var n, c := NatToString(units), TwoDigits(cents);
    var t := n + "." + c;
    StripRendered(n, c);
    assert t[0] == n[0] && IsDigit(t[0]);
    assert DecimalValue(t) == UnsignedDecimal(t);
    UnsignedDecimalOfParts(n, c);
    NatToStringRoundTrip(units);
    TwoDigitsValue(cents);
    assert Pow10(|c|) == 100;
  }

  lemma StripBetween(a: string, c: char, b: string)
    requires c !in a && c !in b
    ensures Strip(a + [c] + b, c) == a + b
  {
    var t := [c] + b;
    AppendAssoc(a, [c], b);
    StripAppend(a, t, c);
    StripLeading(c, b);
    StripAbsent(a, c);
  }

  lemma DigitsLackSigns(s: string)
    requires AllDigits(s)
    ensures '$' !in s && ',' !in s && '.' !in s
  {
    forall x | x in s ensures IsDigit(x) {
      var k :| 0 <= k < |s| && s[k] == x;
    }
  }

  lemma StripThousands(a: string, b: string, c: string)
    requires AllDigits(a) && AllDigits(b) && AllDigits(c)
    ensures Strip(Strip("$" + (a + ("," + (b + ("." + c)))), '$'), ',') == (a + b) + "." + c
  {
    DigitsLackSigns(a);
    DigitsLackSigns(b);
    DigitsLackSigns(c);
    var r := b + ("." + c);
    var t := a + ("," + r);
    StripLeading('$', t);
    StripAppend(a, "," + r, ',');
    StripAbsent(a, ',');
    StripLeading(',', r);
    assert a + r == (a + b) + "." + c;
  }

  lemma DigitsAppend(a: string, b: string)
    requires AllDigits(a) && AllDigits(b)
    ensures AllDigits(a + b)
  {
    forall k | 0 <= k < |a + b| ensures IsDigit((a + b)[k]) {
      if k >= |a| {
        assert (a + b)[k] == b[k - |a|];
      }
    }
  }

  /** A thousands separator is dropped wherever it stands: "$<a>,<b>.<c>" is read as the
      number "<a><b>.<c>". */
  lemma CleanCurrencyThousands(a: string, b: string, c: string)
    requires AllDigits(a) && AllDigits(b) && AllDigits(c) && |a| > 0
    ensures CleanCurrency(Str("$" + (a + ("," + (b + ("." + c))))))
      == Number(DigitsValue(a + b) as real + DigitsValue(c) as real / Pow10(|c|) as real)
  {
    var u := (a + b) + "." + c;
    StripThousands(a, b, c);
    DigitsAppend(a, b);
    DecimalOfParts(a + b, c);
    CleanCurrencyOfStripped("$" + (a + ("," + (b + ("." + c)))), u);
  }

  lemma ExampleShape(s: string)
    requires s == "$1,234.56"
    ensures s == "$" + ("1" + ("," + ("234" + ("." + "56"))))
  {
  }

  lemma ExampleDigits(whole: string, fraction: string)
    requires whole == "1" + "234" && fraction == "56"
    ensures AllDigits(whole) && AllDigits(fraction)
    ensures DigitsValue(whole) == 1234 && DigitsValue(fraction) == 56
  {
    assert NatToString(1234) == whole && NatToString(56) == fraction;
    NatToStringRoundTrip(1234);
    NatToStringRoundTrip(56);
  }

  /** The example of the source's comment: "$1,234.56" becomes 1234.56. */
  lemma CleanCurrencyExample(s: string)
    requires s == "$1,234.56"
    ensures CleanCurrency(Str(s)) == Number(1234.56)
  {
    var a, b, c := "1", "234", "56";
    ExampleShape(s);
    ExampleDigits(a + b, c);
    assert AllDigits(a) && AllDigits(b);
    CleanCurrencyThousands(a, b, c);
    assert Pow10(|c|) == 100;
  }

  // ---------------------------------------------------------------------------
  // clean_date

  /** `pd.to_datetime(value).strftime('%Y-%m-%d')`, None when it raises. */
  type DateParse = Cell -> Option<string>

  const NullMarkers: seq<string> := ["", "nan", "nat", "none", "null"]

  /** `pd.isnull(value)` or a lower-cased string form among the null markers; a number's
      string form is never one of them. */
  predicate IsNullMarker(v: Cell) {
    v.Missing? || (v.Str? && Lower(v.s) in NullMarkers)
  }

  /** `clean_date`: None for the null value and the null markers, otherwise the parse of
      the value (None when parsing fails). */
  function CleanDate(v: Cell, toDate: DateParse): (r: Option<string>)
    ensures IsNullMarker(v) ==> r.None?
    ensures r.Some? ==> r == toDate(v)
  {
    if IsNullMarker(v) then None else toDate(v)
  }

  /** The null-marker test ignores ASCII case. */
  lemma NullMarkerIgnoresCase(s: string)
    ensures IsNullMarker(Str(s)) <==> IsNullMarker(Str(Upper(s)))
    ensures IsNullMarker(Str(s)) <==> IsNullMarker(Str(Lower(s)))
  {
    assert Lower(Upper(s)) == Lower(s);
    assert Lower(Lower(s)) == Lower(s);
  }

  /** Spellings of the null markers in other cases give None whatever the date parser does. */
  lemma CleanDateMarkers(a: string, b: string, c: string, toDate: DateParse)
    requires a == "NaN" && b == "NULL" && c == "None"
    ensures CleanDate(Str(a), toDate).None?
    ensures CleanDate(Str(b), toDate).None?
    ensures CleanDate(Str(c), toDate).None?
    ensures CleanDate(Missing, toDate).None?
  {
    assert Lower(a) == NullMarkers[1];
    assert Lower(b) == NullMarkers[4];
    assert Lower(c) == NullMarkers[3];
  }

  /** A value other than a marker yields whatever the parser yields, a failure included. */
  lemma CleanDateParses(v: Cell, toDate: DateParse)
    requires !IsNullMarker(v)
    ensures CleanDate(v, toDate) == toDate(v)
  {
  }

  /** The cell a cleaned date becomes. */
  function DateCell(d: Option<string>): Cell {
    match d
    case Some(s) => Str(s)
    case None => Missing
  }

  // ---------------------------------------------------------------------------
  // Column types and the CREATE TABLE text

  const RealKeywords: seq<string> := ["price", "sales", "tax", "amount", "qty"]

  /** `any(kw in text for kw in keywords)`. */
  function AnyContained(text: string, keywords: seq<string>): (b: bool)
    ensures b <==> exists k :: 0 <= k < |keywords| && Contains(text, keywords[k])
  {
    if keywords == [] then false
    else Contains(text, keywords[0]) || AnyContained(text, keywords[1..])
  }

  /** The type of a column: REAL when its lower-cased name contains a numeric keyword,
      TEXT otherwise (a date column included). */
  function ColumnType(name: string): (t: string)
    ensures t == "REAL" || t == "TEXT"
    ensures t == "REAL" <==> exists k :: 0 <= k < |RealKeywords| && Contains(Lower(name), RealKeywords[k])
  {
    if AnyContained(Lower(name), RealKeywords) then "REAL"
    else if Contains(Lower(name), "date") then "TEXT"
    else "TEXT"
  }

  /** "Gross Sales" and "Qty" hold numbers. */
  lemma NumericColumnTypes(gross: string, qty: string)
    requires gross == "Gross Sales" && qty == "Qty"
    ensures ColumnType(gross) == "REAL" && ColumnType(qty) == "REAL"
  {
    assert Lower(gross)[6..11] == RealKeywords[1];
    assert OccursAt(Lower(gross), RealKeywords[1], 6);
    assert Lower(qty)[0..3] == RealKeywords[4];
    assert OccursAt(Lower(qty), RealKeywords[4], 0);
  }

  /** A date column is TEXT, unless its name also holds a numeric keyword: "Sales Date"
      is REAL. */
  lemma DateColumnTypes(date: string, salesDate: string)
    requires date == "Date" && salesDate == "Sales Date"
    ensures ColumnType(date) == "TEXT" && ColumnType(salesDate) == "REAL"
  {
    assert Lower(salesDate)[0..5] == RealKeywords[1];
    assert OccursAt(Lower(salesDate), RealKeywords[1], 0);
    var d := Lower(date);
    assert d == "date";
    Absent(d, RealKeywords[0], 'p');
    Absent(d, RealKeywords[1], 's');
    Absent(d, RealKeywords[2], 'x');
    Absent(d, RealKeywords[3], 'm');
    Absent(d, RealKeywords[4], 'q');
  }

  /** "Item" is TEXT. */
  lemma TextColumnType(item: string)
    requires item == "Item"
    ensures ColumnType(item) == "TEXT"
  {
    var d := Lower(item);
    assert d == "item";
    Absent(d, RealKeywords[0], 'p');
    Absent(d, RealKeywords[1], 's');
    Absent(d, RealKeywords[2], 'x');
    Absent(d, RealKeywords[3], 'n');
    Absent(d, RealKeywords[4], 'q');
  }

  /** One entry of the column list: `[name] TYPE`. */
  function ColumnDefinition(name: string): (d: string)
    ensures d == "[" + name + "] " + ColumnType(name)
  {
    "[" + name + "] " + ColumnType(name)
  }

  /** A column entry reads back as "[", the name, "] " and a four-letter type, REAL exactly
      when the lower-cased name contains a numeric keyword. */
  lemma ColumnDefinitionReadsBack(name: string)
    ensures var d := ColumnDefinition(name);
      && |d| == |name| + 7
      && d[0] == '[' && d[1..|name| + 1] == name && d[|name| + 1..|name| + 3] == "] "
      && (d[|name| + 3..] == "REAL" || d[|name| + 3..] == "TEXT")
      && (d[|name| + 3..] == "REAL" <==> exists k :: 0 <= k < |RealKeywords| && Contains(Lower(name), RealKeywords[k]))
  {
  }

  /** The column list of the CREATE TABLE statement, one entry per header name in order. */
  function ColumnDefinitions(header: seq<string>): (defs: seq<string>)
    ensures |defs| == |header|
    ensures forall i :: 0 <= i < |header| ==> defs[i] == ColumnDefinition(header[i])
  {
    if header == [] then [] else ColumnDefinitions(header[..|header| - 1]) + [ColumnDefinition(header[|header| - 1])]
  }

  /** The loop building `columns` from the sample header. */
  method BuildColumns(header: seq<string>) returns (columns: seq<string>)
    ensures columns == ColumnDefinitions(header)
  {
    columns := [];
    var i := 0;
    while i < |header|
      invariant i <= |header|
      invariant columns == ColumnDefinitions(header[..i])
    {
      assert header[..i + 1][..i] == header[..i];
      columns := columns + [ColumnDefinition(header[i])];
      i := i + 1;
    }
    assert header[..i] == header;
  }

  const CreateOpen: string := "\n    CREATE TABLE IF NOT EXISTS sales (\n        "
  const KeyColumn: string := "id INTEGER PRIMARY KEY AUTOINCREMENT,"
  const Indent: string := "\n        "
  const CreateTail: string := "\n    )\n    "

  /** The CREATE TABLE statement for a column list. */
  function CreateTableSql(columns: seq<string>): string {
    CreateOpen + KeyColumn + Indent + Join(", ", columns) + CreateTail
  }

  lemma Pieces(a: string, b: string, c: string, d: string, e: string)
    ensures var s := a + b + c + d + e;
      s[..|a|] == a && s[|a|..|a| + |b|] == b && s[|a| + |b| + |c|..|s| - |e|] == d
  {
    var s := a + b + c + d + e;
    assert s == a + (b + (c + (d + e)));
  }

  /** The statement opens the `sales` table, names the key column `id` before any
      inferred column, then lists the entries of the header in order, separated by ", ". */
  lemma CreateTableShape(header: seq<string>)
    ensures var sql := CreateTableSql(ColumnDefinitions(header));
      var start := |CreateOpen| + |KeyColumn| + |Indent|;
      sql[..|CreateOpen|] == CreateOpen
      && OccursAt(sql, KeyColumn, |CreateOpen|)
      && start <= |sql| - |CreateTail|
      && sql[start..|sql| - |CreateTail|] == Join(", ", ColumnDefinitions(header))
  {
    Pieces(CreateOpen, KeyColumn, Indent, Join(", ", ColumnDefinitions(header)), CreateTail);
  }

  /** The names of the columns of the created table: `id`, then the header. */
  function TableColumns(header: seq<string>): seq<string> {
    ["id"] + header
  }

  // ---------------------------------------------------------------------------
  // Cleaning a frame

  const CurrencyColumns: seq<string> := ["Gross Sales", "Net Sales", "Tax", "Discounts"]

  lemma CurrencyColumnsDistinct()
    ensures forall a, b :: 0 <= a < b < |CurrencyColumns| ==> CurrencyColumns[a] != CurrencyColumns[b]
    ensures "Date" !in CurrencyColumns
  {
  }

  /** The name of column `i`, "" past the header. */
  function ColumnName(header: seq<string>, i: nat): string {
    if i < |header| then header[i] else ""
  }

  /** A cell after cleaning the 'Date' column and the currency columns among `done`. */
  function CleanedCell(name: string, v: Cell, toDate: DateParse, done: seq<string>): Cell {
    if name == "Date" then DateCell(CleanDate(v, toDate))
    else if name in done then CleanCurrency(v)
    else v
  }

  /** A frame after cleaning the 'Date' column and the currency columns among `done`. */
  function CleanedRows(header: seq<string>, rows: seq<seq<Cell>>, toDate: DateParse, done: seq<string>): seq<seq<Cell>> {
    seq(|rows|, r requires 0 <= r < |rows| =>
      seq(|rows[r]|, i requires 0 <= i < |rows[r]| => CleanedCell(ColumnName(header, i), rows[r][i], toDate, done)))
  }

  /** `df[name] = df[name].apply(f)`. */
  function ApplyColumn(rows: seq<seq<Cell>>, header: seq<string>, name: string, f: Cell -> Cell): seq<seq<Cell>> {
    seq(|rows|, r requires 0 <= r < |rows| =>
      seq(|rows[r]|, i requires 0 <= i < |rows[r]| => if ColumnName(header, i) == name then f(rows[r][i]) else rows[r][i]))
  }

  function DateCleaner(toDate: DateParse): Cell -> Cell {
    v => DateCell(CleanDate(v, toDate))
  }

  function CurrencyCleaner(): Cell -> Cell {
    CleanCurrency
  }

  /** Cleaning the 'Date' column first: the frame with no currency column cleaned yet. */
  lemma DateStep(header: seq<string>, rows: seq<seq<Cell>>, toDate: DateParse)
    ensures "Date" in header ==> ApplyColumn(rows, header, "Date", DateCleaner(toDate)) == CleanedRows(header, rows, toDate, [])
    ensures "Date" !in header ==> rows == CleanedRows(header, rows, toDate, [])
  {
    var out := CleanedRows(header, rows, toDate, []);
    if "Date" in header {
      var applied := ApplyColumn(rows, header, "Date", DateCleaner(toDate));
      forall r | 0 <= r < |rows| ensures applied[r] == out[r] {
      }
    } else {
      forall r | 0 <= r < |rows| ensures rows[r] == out[r] {
        forall i | 0 <= i < |rows[r]| ensures rows[r][i] == out[r][i] {
          assert ColumnName(header, i) != "Date";
        }
      }
    }
  }

  /** Cleaning currency column `j` after the earlier ones: one more column done. */
  lemma CurrencyStep(header: seq<string>, rows: seq<seq<Cell>>, toDate: DateParse, j: nat)
    requires j < |CurrencyColumns|
    ensures var before := CleanedRows(header, rows, toDate, CurrencyColumns[..j]);
      var after := CleanedRows(header, rows, toDate, CurrencyColumns[..j + 1]);
      (CurrencyColumns[j] in header ==> ApplyColumn(before, header, CurrencyColumns[j], CurrencyCleaner()) == after)
      && (CurrencyColumns[j] !in header ==> before == after)
  {
    CurrencyColumnsDistinct();
    var name := CurrencyColumns[j];
    var before := CleanedRows(header, rows, toDate, CurrencyColumns[..j]);
    var after := CleanedRows(header, rows, toDate, CurrencyColumns[..j + 1]);
    assert name !in CurrencyColumns[..j];
    assert CurrencyColumns[..j + 1] == CurrencyColumns[..j] + [name];
    if name in header {
      var applied := ApplyColumn(before, header, name, CurrencyCleaner());
      forall r | 0 <= r < |rows| ensures applied[r] == after[r] {
      }
    } else {
      forall r | 0 <= r < |rows| ensures before[r] == after[r] {
        forall i | 0 <= i < |rows[r]| ensures before[r][i] == after[r][i] {
          assert ColumnName(header, i) != name;
        }
      }
    }
  }

  /** The cleaning steps of one frame: the 'Date' column when present, then each currency
      column that is present. */
  method CleanFrame(header: seq<string>, rows: seq<seq<Cell>>, toDate: DateParse) returns (df: seq<seq<Cell>>)
    ensures df == CleanedRows(header, rows, toDate, CurrencyColumns)
  {
    df := rows;
    DateStep(header, rows, toDate);
    if "Date" in header {
      df := ApplyColumn(df, header, "Date", DateCleaner(toDate));
    }
    var j := 0;
    while j < |CurrencyColumns|
      invariant j <= |CurrencyColumns|
      invariant df == CleanedRows(header, rows, toDate, CurrencyColumns[..j])
    {
      CurrencyStep(header, rows, toDate, j);
      if CurrencyColumns[j] in header {
        df := ApplyColumn(df, header, CurrencyColumns[j], CurrencyCleaner());
      }
      j := j + 1;
    }
    assert CurrencyColumns[..j] == CurrencyColumns;
  }

  /** Only 'Date' and the four currency columns are rewritten; every other cell is kept. */
  lemma CleaningTouchesNamedColumns(header: seq<string>, rows: seq<seq<Cell>>, toDate: DateParse, r: nat, i: nat)
    requires r < |rows| && i < |rows[r]|
    ensures var out := CleanedRows(header, rows, toDate, CurrencyColumns);
      var name := ColumnName(header, i);
      (name == "Date" ==> out[r][i] == DateCell(CleanDate(rows[r][i], toDate)))
      && (name in CurrencyColumns ==> out[r][i] == CleanCurrency(rows[r][i]))
      && (name != "Date" && name !in CurrencyColumns ==> out[r][i] == rows[r][i])
  {
    CurrencyColumnsDistinct();
  }

  // ---------------------------------------------------------------------------
  // The import loop

  /** A CSV file as pandas reads it: its header and rows, or a read that raises. */
  datatype CsvFile = Unreadable | Frame(header: seq<string>, rows: seq<seq<Cell>>)

  /** The cell of column `name` in a row, by the first column of that name. */
  function CellOf(header: seq<string>, row: seq<Cell>, name: string): Cell
    requires name in header
  {
    var i := FirstIndex(header, name);
    if i < |row| then row[i] else Missing
  }

  /** A row as the table stores it: column name to value. */
  function RowMap(header: seq<string>, row: seq<Cell>): (m: map<string, Cell>)
    ensures forall name :: name in m <==> name in header
  {
    map name | name in header :: CellOf(header, row, name)
  }

  /** SQLite resolves column names without regard to ASCII case. */
  predicate HasColumn(columns: seq<string>, name: string) {
    Lower(name) in LowerAll(columns)
  }

  function LowerAll(names: seq<string>): (r: seq<string>)
    ensures |r| == |names|
  {
    seq(|names|, k requires 0 <= k < |names| => Lower(names[k]))
  }

  /** `to_sql` appends a readable frame whose every column the table has; any other file
      raises and is skipped. */
  predicate Accepted(f: CsvFile, columns: seq<string>) {
    f.Frame? && forall i :: 0 <= i < |f.header| ==> HasColumn(columns, f.header[i])
  }

  /** The rows one file adds: its de-duplicated, cleaned rows when accepted, none otherwise. */
  function FileRows(f: CsvFile, columns: seq<string>, toDate: DateParse): (added: seq<map<string, Cell>>)
    ensures |added| == if Accepted(f, columns) then |Dedup(f.rows)| else 0
  {
    if Accepted(f, columns) then
      var df := CleanedRows(f.header, Dedup(f.rows), toDate, CurrencyColumns);
      seq(|df|, k requires 0 <= k < |df| => RowMap(f.header, df[k]))
    else []
  }

  /** The rows the first `n` files add, in file order. */
  function Imported(files: seq<CsvFile>, columns: seq<string>, toDate: DateParse, n: nat): seq<map<string, Cell>>
    requires n <= |files|
  {
    if n == 0 then [] else Imported(files, columns, toDate, n - 1) + FileRows(files[n - 1], columns, toDate)
  }

  lemma ImportedStep(files: seq<CsvFile>, columns: seq<string>, toDate: DateParse, n: nat, added: seq<map<string, Cell>>)
    requires n < |files| && added == FileRows(files[n], columns, toDate)
    ensures Imported(files, columns, toDate, n + 1) == Imported(files, columns, toDate, n) + added
  {
  }

  /** The number of distinct rows of each accepted file among the first `n`, summed. */
  function UniqueCount(files: seq<CsvFile>, columns: seq<string>, n: nat): nat
    requires n <= |files|
  {
    if n == 0 then 0
    else
      var own := if Accepted(files[n - 1], columns) then |Elements(files[n - 1].rows)| else 0;
      UniqueCount(files, columns, n - 1) + own
  }

  /** The table grows by the per-file counts of distinct rows: duplicates are dropped
      within a file, never across files. */
  lemma {:induction false} ImportedCount(files: seq<CsvFile>, columns: seq<string>, toDate: DateParse, n: nat)
    requires n <= |files|
    ensures |Imported(files, columns, toDate, n)| == UniqueCount(files, columns, n)
  {
    if n > 0 {
      ImportedCount(files, columns, toDate, n - 1);
      if files[n - 1].Frame? {
        DedupCardinality(files[n - 1].rows);
      }
    }
  }

  /** The rows a file adds, row by row: the cleaned form of its distinct rows, in order of
      first occurrence. */
  lemma FileRowsAreDistinctRows(f: CsvFile, columns: seq<string>, toDate: DateParse)
    requires Accepted(f, columns)
    ensures var d := Dedup(f.rows);
      NoDuplicates(d) && (forall row :: row in d <==> row in f.rows)
      && var added := FileRows(f, columns, toDate);
      forall k :: 0 <= k < |d| ==>
        added[k] == RowMap(f.header, CleanedRows(f.header, d, toDate, CurrencyColumns)[k])
  {
    DedupNoDuplicates(f.rows);
    DedupMembers(f.rows);
  }

  /** The `sales` table: whether it exists, its column names, and its rows. */
  class SalesTable {
    var created: bool
    var columns: seq<string>
    var rows: seq<map<string, Cell>>

    constructor ()
      ensures !created && columns == [] && rows == []
    {
      created := false;
      columns := [];
      rows := [];
    }
  }

  /** The body of the per-file `try`: read, drop duplicates, clean, and append; a failing
      step adds nothing. */
  method ImportFile(f: CsvFile, columns: seq<string>, toDate: DateParse) returns (added: seq<map<string, Cell>>)
    ensures added == FileRows(f, columns, toDate)
  {
    added := [];
    if f.Frame? {
      var df := Dedup(f.rows);
      df := CleanFrame(f.header, df, toDate);
      if Accepted(f, columns) {
        added := seq(|df|, k requires 0 <= k < |df| => RowMap(f.header, df[k]));
      }
    }
  }

  /** The loop over the files: each file's rows appended in turn, a failing file skipped
      and the rest still processed. */
  method AppendFiles(db: SalesTable, files: seq<CsvFile>, toDate: DateParse)
    modifies db
    ensures db.created == old(db.created) && db.columns == old(db.columns)
    ensures db.rows == old(db.rows) + Imported(files, db.columns, toDate, |files|)
  {
    var start, columns := db.rows, db.columns;
    var i := 0;
    while i < |files|
      invariant i <= |files|
      invariant db.created == old(db.created) && db.columns == columns
      invariant db.rows == start + Imported(files, columns, toDate, i)
    {
      var added := ImportFile(files[i], columns, toDate);
      ImportedStep(files, columns, toDate, i, added);
      var before := Imported(files, columns, toDate, i);
      AppendAssoc(start, before, added);
      db.rows := db.rows + added;
      i := i + 1;
    }
  }

  datatype ImportOutcome = NoCsvFile | SampleUnreadable | CreateFailed | Processed(files: nat)

  /** Whether SQLite refuses the CREATE TABLE statement built from `header`. A `]` inside a
      name ends the bracketed identifier early, and the statement does not tokenize, whether
      or not the table exists. When the table is missing, the columns are also checked: a
      name equal to `id`, or two names equal, ignoring ASCII case, are duplicate columns.
      An existing table makes IF NOT EXISTS skip the column checks. */
  predicate CreateRejected(header: seq<string>, tableExists: bool) {
    || (exists i :: 0 <= i < |header| && ']' in header[i])
    || (!tableExists && exists i :: 0 <= i < |header| && Lower(header[i]) == "id")
    || (!tableExists && exists i, j :: 0 <= i < j < |header| && Lower(header[i]) == Lower(header[j]))
  }

  /** A header naming `ID`, or both `Tax` and `tax`, fails only for a new table; a `]` in a
      name fails whether or not the table exists; `Tax` and `Qty` are accepted. */
  lemma CreateRejectedExamples()
    ensures CreateRejected(["ID"], false) && !CreateRejected(["ID"], true)
    ensures CreateRejected(["Tax", "tax"], false) && !CreateRejected(["Tax", "tax"], true)
    ensures CreateRejected(["a]"], true)
    ensures !CreateRejected(["Tax", "Qty"], false)
  {
    LowerIs("ID", "id");
    LowerIs("Tax", "tax");
    LowerIs("tax", "tax");
    LowerIs("Qty", "qty");
    assert Lower(["ID"][0]) == "id";
    assert Lower(["Tax", "tax"][0]) == Lower(["Tax", "tax"][1]);
    assert ']' in ["a]"][0];
  }

  /** `import_csv_to_db` over the CSV files of the folder, in listing order. With no file
      it returns before any table is created; a first file that cannot be read raises
      before the table is created; a CREATE TABLE statement that SQLite refuses raises
      before any file is imported. Otherwise the table is created when missing, from the
      first file's header, and every accepted file's rows are appended in turn. */
  method ImportCsvToDb(db: SalesTable, files: seq<CsvFile>, toDate: DateParse)
    returns (outcome: ImportOutcome, createSql: Option<string>)
    modifies db
    ensures files == [] ==> outcome == NoCsvFile && createSql.None? && unchanged(db)
    ensures files != [] && files[0].Unreadable? ==> outcome == SampleUnreadable && createSql.None? && unchanged(db)
    ensures files != [] && files[0].Frame? && CreateRejected(files[0].header, old(db.created)) ==>
      outcome == CreateFailed && createSql == Some(CreateTableSql(ColumnDefinitions(files[0].header)))
      && unchanged(db)
    ensures files != [] && files[0].Frame? && !CreateRejected(files[0].header, old(db.created)) ==>
      outcome == Processed(|files|)
      && createSql == Some(CreateTableSql(ColumnDefinitions(files[0].header)))
      && db.created
      && db.columns == (if old(db.created) then old(db.columns) else TableColumns(files[0].header))
      && db.rows == old(db.rows) + Imported(files, db.columns, toDate, |files|)
  {
    if files == [] {
      return NoCsvFile, None;
    }
    if files[0].Unreadable? {
      return SampleUnreadable, None;
    }
    var columns := BuildColumns(files[0].header);
    var sql := CreateTableSql(columns);
    if CreateRejected(files[0].header, db.created) {
      return CreateFailed, Some(sql);
    }
    if !db.created {
      db.created := true;
      db.columns := TableColumns(files[0].header);
    }
    AppendFiles(db, files, toDate);
    outcome, createSql := Processed(|files|), Some(sql);
  }
}
