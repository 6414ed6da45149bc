/** The weekly sales-analysis script: the same seven-day fetch as the business report,
    with rows that carry neither a category nor an hour, followed by three summaries
    (daily totals per location, product sales per location, per-transaction figures per
    location); the script returns the frame, or nothing when it is empty. */
module AnalyzeSales {
  import opened Wrappers
  import opened Seqs
  import opened Square
  import opened Frames
  import opened WeeklyFetch

  /** The locations the script queries (one). */
  const LocationIds: seq<string> := ["LMDN6Z5DKNJ2P"]

  /** One row of the frame: 商店位置, 日期, 時間, 交易 ID, 商品名稱, 數量, 單價, 總金額. */
  datatype SalesRow = SalesRow(
    location: string,
    date: string,
    time: string,
    transactionId: string,
    productName: string,
    quantity: real,
    unitPrice: real,
    total: real)

  const UnknownProduct: string := "未知商品"

  /** The line items found for a payment, as in the business report: those of a
      successful lookup with an order, none otherwise; None when the lookup raises. */
  function ItemsFound(p: Payment, orders: string -> OrderResult): Option<seq<LineItem>> {
    if Truthy(p.orderId) then
      match orders(p.orderId.value)
      case OrderRaised => None
      case OrderFailed => Some([])
      case OrderFound(order) => Some(if order.Some? then order.value.lineItems else [])
    else Some([])
  }

  function ItemRow(p: Payment, t: LocalTime, item: LineItem): SalesRow {
    SalesRow(LocationIds[0], t.date, t.time, p.id, item.name.GetOr(UnknownProduct),
      item.quantity.GetOr(0.0), Major(AmountOrZero(item.basePriceMoney)), Major(AmountOrZero(item.totalMoney)))
  }

  function FallbackRow(p: Payment, t: LocalTime): SalesRow {
    var total := Major(AmountOrZero(p.totalMoney));
    SalesRow(LocationIds[0], t.date, t.time, p.id, UnknownProduct, 1.0, total, total)
  }

  /** The rows one payment contributes; None when `created_at` is missing or does not
      parse, or when the order lookup raises. */
  function PaymentRows(p: Payment, parse: ParseTime, orders: string -> OrderResult): Option<seq<SalesRow>> {
    if p.createdAt.None? then None
    else
      match parse(p.createdAt.value)
      case None => None
      case Some(t) =>
        match ItemsFound(p, orders)
        case None => None
        case Some(items) =>
          if items != [] then Some(seq(|items|, k requires 0 <= k < |items| => ItemRow(p, t, items[k])))
          else Some([FallbackRow(p, t)])
  }

  function RowsOf(parse: ParseTime, orders: string -> OrderResult): Payment -> Option<seq<SalesRow>> {
    p => PaymentRows(p, parse, orders)
  }

  /** One row per line item when the order has items; otherwise exactly one "未知商品" row
      of quantity 1 whose unit price and total are the payment's `total_money`. */
  lemma PaymentRowsShape(p: Payment, parse: ParseTime, orders: string -> OrderResult)
    requires PaymentRows(p, parse, orders).Some?
    ensures p.createdAt.Some? && parse(p.createdAt.value).Some? && ItemsFound(p, orders).Some?
    ensures var t, items, rows := parse(p.createdAt.value).value, ItemsFound(p, orders).value, PaymentRows(p, parse, orders).value;
      (items != [] ==> (|rows| == |items|
        && forall k :: 0 <= k < |items| ==>
          rows[k].productName == items[k].name.GetOr(UnknownProduct)
          && rows[k].quantity == items[k].quantity.GetOr(0.0)
          && rows[k].unitPrice == AmountOrZero(items[k].basePriceMoney) as real / 100.0
          && rows[k].total == AmountOrZero(items[k].totalMoney) as real / 100.0))
      && (items == [] ==> (|rows| == 1
        && rows[0].productName == UnknownProduct && rows[0].quantity == 1.0
        && rows[0].unitPrice == rows[0].total == AmountOrZero(p.totalMoney) as real / 100.0))
      && forall k :: 0 <= k < |rows| ==>
        rows[k].location == "LMDN6Z5DKNJ2P" && rows[k].transactionId == p.id
        && rows[k].date == t.date && rows[k].time == t.time
  {
  }

  /** What `get_sales_data` returns: the fetched rows when there are some; None when the
      fetch raised or found no row. */
  function SalesData(pages: seq<PageResult>, parse: ParseTime, orders: string -> OrderResult): (r: Option<seq<SalesRow>>)
    requires Terminates(pages)
    ensures r.None? <==> Fetched(pages, RowsOf(parse, orders)) in {None, Some([])}
    ensures r.Some? ==> r == Fetched(pages, RowsOf(parse, orders)) && r.value != []
  {
    match Fetched(pages, RowsOf(parse, orders))
    case None => None
    case Some(rows) => if rows == [] then None else Some(rows)
  }

  /** `get_sales_data`: the fetch loop with this script's rows, then the empty-frame test. */
  method GetSalesData(beginTime: string, endTime: string, pages: seq<PageResult>,
                      parse: ParseTime, orders: string -> OrderResult)
    returns (df: Option<seq<SalesRow>>, totalPayments: nat)
    requires Terminates(pages)
    ensures df == SalesData(pages, parse, orders)
    ensures df.Some? ==> totalPayments == |Listed(pages).value|
  {
    var data, calls;
    data, totalPayments, calls := FetchSales(beginTime, endTime, LocationIds[0], pages, RowsOf(parse, orders));
    if data.None? || data.value == [] {
      return None, totalPayments;
    }
    df := data;
  }

  // ---------------------------------------------------------------------------
  // The summaries

  function LocationOf(r: SalesRow): string { r.location }
  function LocationDate(r: SalesRow): (string, string) { (r.location, r.date) }
  function LocationProduct(r: SalesRow): (string, string) { (r.location, r.productName) }
  function TransactionOf(r: SalesRow): string { r.transactionId }
  function AmountOf(r: SalesRow): real { r.total }
  function QuantityOf(r: SalesRow): real { r.quantity }

  /** 每日銷售總額: per (location, date) pair present, the sum of 總金額. */
  function DailyTotals(rows: seq<SalesRow>): (m: map<(string, string), real>)
    ensures forall ld :: ld in m <==> exists i :: 0 <= i < |rows| && (rows[i].location, rows[i].date) == ld
    ensures forall ld :: ld in m ==> m[ld] == SumWhere(rows, LocationDate, ld, AmountOf)
  {
    GroupSum(rows, LocationDate, AmountOf)
  }

  /** One line of the product summary. */
  datatype ProductLine = ProductLine(location: string, productName: string, quantity: real, amount: real)

  function NegatedAmount(line: ProductLine): real { -line.amount }

  /** The (location, product) pair a line is about. */
  function PairOf(line: ProductLine): (string, string) { (line.location, line.productName) }

  /** The product lines in order of first appearance of each (location, product) pair. */
  function ProductLines(rows: seq<SalesRow>): (lines: seq<ProductLine>)
    ensures forall i, j :: 0 <= i < j < |lines| ==>
      PairOf(lines[i]) != PairOf(lines[j])
    ensures KeySet(lines, PairOf) == KeySet(rows, LocationProduct)
    ensures forall i :: 0 <= i < |lines| ==>
      && lines[i].quantity == SumWhere(rows, LocationProduct, PairOf(lines[i]), QuantityOf)
      && lines[i].amount == SumWhere(rows, LocationProduct, PairOf(lines[i]), AmountOf)
    ensures |lines| == |Keys(rows, LocationProduct)|
    ensures forall i :: 0 <= i < |lines| ==>
      PairOf(lines[i]) == Keys(rows, LocationProduct)[i]
      && lines[i].quantity == SumWhere(rows, LocationProduct, Keys(rows, LocationProduct)[i], QuantityOf)
      && lines[i].amount == SumWhere(rows, LocationProduct, Keys(rows, LocationProduct)[i], AmountOf)
  {
    var keys := Keys(rows, LocationProduct);
    KeysMembers(rows, LocationProduct);
    var lines := seq(|keys|, i requires 0 <= i < |keys| =>
      ProductLine(keys[i].0, keys[i].1,
        SumWhere(rows, LocationProduct, keys[i], QuantityOf), SumWhere(rows, LocationProduct, keys[i], AmountOf)));
    LabelsAreKeys(rows, LocationProduct, lines, PairOf);
    lines
  }

  /** 商品銷售明細: one line per (location, product) pair present, each pair once, with the
      sums of 數量 and 總金額, by non-increasing 總金額. */
  function ProductSummary(rows: seq<SalesRow>): (summary: seq<ProductLine>)
    ensures multiset(summary) == multiset(ProductLines(rows))
    ensures forall i, j :: 0 <= i < j < |summary| ==> summary[i].amount >= summary[j].amount
  {
    var sorted := SortBy(ProductLines(rows), NegatedAmount);
    assert forall i, j :: 0 <= i < j < |sorted| ==> NegatedAmount(sorted[i]) <= NegatedAmount(sorted[j]);
    sorted
  }

  /** Every pair of a row has exactly its line in the summary. */
  lemma ProductSummaryCoversPairs(rows: seq<SalesRow>, i: nat)
    requires i < |rows|
    ensures exists j :: (0 <= j < |ProductSummary(rows)| && ProductSummary(rows)[j].location == rows[i].location
      && ProductSummary(rows)[j].productName == rows[i].productName
      && ProductSummary(rows)[j].amount == SumWhere(rows, LocationProduct, LocationProduct(rows[i]), AmountOf))
  {
    var keys := Keys(rows, LocationProduct);
    KeysMembers(rows, LocationProduct);
    assert HasKey(rows, LocationProduct, LocationProduct(rows[i]));
    var k :| 0 <= k < |keys| && keys[k] == LocationProduct(rows[i]);
    var lines := ProductLines(rows);
    assert lines[k] in multiset(ProductSummary(rows));
  }

  /** 交易統計 of one location: 總交易筆數 and the mean, largest and smallest
      per-transaction sum of 總金額. */
  datatype TransactionStats = TransactionStats(count: nat, mean: real, largest: real, smallest: real)

  /** The figures of one location; None when the location has no row. */
  function LocationStats(rows: seq<SalesRow>, location: string): (r: Option<TransactionStats>)
    ensures r.None? <==> !HasKey(rows, LocationOf, location)
    ensures r.Some? ==> r.value.count == |Keys(Where(rows, LocationOf, location), TransactionOf)| > 0
    ensures r.Some? ==> r.value.smallest <= r.value.mean <= r.value.largest
    ensures r.Some? ==> r.value.mean == Total(Where(rows, LocationOf, location), AmountOf) / r.value.count as real
    ensures r.Some? ==>
      var mine := Where(rows, LocationOf, location);
      var sums := GroupTotals(mine, TransactionOf, AmountOf, Keys(mine, TransactionOf));
      && |sums| > 0
      && r.value.largest == MaxOf(sums) && r.value.smallest == MinOf(sums) && r.value.mean == Mean(sums)
    ensures r.Some? ==>
      var mine := Where(rows, LocationOf, location);
      && (forall k :: 0 <= k < |mine| ==>
            r.value.smallest <= SumWhere(mine, TransactionOf, mine[k].transactionId, AmountOf) <= r.value.largest)
      && (exists k :: 0 <= k < |mine| && SumWhere(mine, TransactionOf, mine[k].transactionId, AmountOf) == r.value.largest)
      && (exists k :: 0 <= k < |mine| && SumWhere(mine, TransactionOf, mine[k].transactionId, AmountOf) == r.value.smallest)
  {
    var mine := Where(rows, LocationOf, location);
    WhereEmpty(rows, LocationOf, location);
    if mine == [] then None
    else
      var ids := Keys(mine, TransactionOf);
      var sums := GroupTotals(mine, TransactionOf, AmountOf, ids);
      KeysMembers(mine, TransactionOf);
      assert HasKey(mine, TransactionOf, mine[0].transactionId);
      MinMeanMax(sums);
      GroupTotalsConserve(mine, TransactionOf, AmountOf);
      GroupExtremes(mine, TransactionOf, AmountOf);
      Some(TransactionStats(|ids|, Mean(sums), MaxOf(sums), MinOf(sums)))
  }

  /** The per-location statistics the script prints, in the order of its location list. */
  function Statistics(rows: seq<SalesRow>): (stats: seq<Option<TransactionStats>>)
    ensures |stats| == |LocationIds|
    ensures forall i :: 0 <= i < |LocationIds| ==> stats[i] == LocationStats(rows, LocationIds[i])
  {
    seq(|LocationIds|, i requires 0 <= i < |LocationIds| => LocationStats(rows, LocationIds[i]))
  }
}
