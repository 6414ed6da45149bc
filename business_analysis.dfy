/** The weekly business-analysis script: it fetches the last seven days of payments of
    its one location, expands them into one row per sold item (with category and hour)
    and reduces the rows to the report figures. The plots are not modelled; the figures
    they show are. */
module BusinessAnalysis {
  import opened Wrappers
  import opened Text
  import opened Seqs
  import opened Square
  import opened Frames
  import opened WeeklyFetch
  import DownloadTransactions

  // ---------------------------------------------------------------------------
  // get_product_category (this script's own copy)

  /** The script's copy of the product classifier. */
  function ProductCategory(productName: string): (r: string)
    ensures r in DownloadTransactions.Labels
  {
    var name := Lower(productName);
    if Contains(name, "noodle") || Contains(name, "麵") then "主食"
    else if Contains(name, "rice") || Contains(name, "飯") then "主食"
    else if Contains(name, "tea") || Contains(name, "茶") then "飲品"
    else if Contains(name, "coffee") || Contains(name, "咖啡") then "飲品"
    else if Contains(name, "cake") || Contains(name, "蛋糕") then "甜點"
    else if Contains(name, "cookie") || Contains(name, "餅乾") then "零食"
    else if Contains(name, "mug") || Contains(name, "杯") then "商品"
    else "其他"
  }

  /** The copy classifies every name as the download script does: the same rules in the
      same order, hence the rule table of that script describes this one too. */
  lemma SameClassifierAsDownload(productName: string)
    ensures ProductCategory(productName) == DownloadTransactions.ProductCategory(productName)
    ensures ProductCategory(productName) ==
      DownloadTransactions.FirstMatch(Lower(productName), DownloadTransactions.Rules, 0).GetOr("其他")
  {
    DownloadTransactions.ProductCategoryFollowsRules(productName);
  }

  // ---------------------------------------------------------------------------
  // get_sales_data

  /** The locations the script queries (one). */
  const LocationIds: seq<string> := ["LMDN6Z5DKNJ2P"]

  /** One row of the frame: 商店位置, 日期, 小時, 時間, 交易 ID, 商品名稱, 商品類別, 數量,
      單價 and 總金額. */
  datatype SaleRow = SaleRow(
    location: string,
    date: string,
    hour: nat,
    time: string,
    transactionId: string,
    productName: string,
    category: string,
    quantity: real,
    unitPrice: real,
    total: real)

  const UnknownProduct: string := "未知商品"

  /** The line items the script finds for a payment: those of a successful lookup with a
      (non-empty) order, and none when there is no order id, the lookup fails or the order
      is absent. None when the lookup raises. */
  function ItemsFound(p: Payment, orders: string -> OrderResult): Option<seq<LineItem>> {
    if Truthy(p.orderId) then
      match orders(p.orderId.value)
      case OrderRaised => None
      case OrderFailed => Some([])
      case OrderFound(order) => Some(if order.Some? then order.value.lineItems else [])
    else Some([])
  }

  function ItemRow(p: Payment, t: LocalTime, item: LineItem): SaleRow {
    var name := item.name.GetOr(UnknownProduct);
    SaleRow(LocationIds[0], t.date, t.hour, t.time, p.id, name, ProductCategory(name),
      item.quantity.GetOr(0.0), Major(AmountOrZero(item.basePriceMoney)), Major(AmountOrZero(item.totalMoney)))
  }

  /** The single row of a payment without line items: its `total_money`. */
  function FallbackRow(p: Payment, t: LocalTime): SaleRow {
    var total := Major(AmountOrZero(p.totalMoney));
    SaleRow(LocationIds[0], t.date, t.hour, t.time, p.id, UnknownProduct, "其他", 1.0, total, total)
  }

  /** The rows one payment contributes; None when `created_at` is missing or does not
      parse, or when the order lookup raises (each raises inside the fetch's `try`). */
  function PaymentRows(p: Payment, parse: ParseTime, orders: string -> OrderResult): Option<seq<SaleRow>> {
    if p.createdAt.None? then None
    else
      match parse(p.createdAt.value)
      case None => None
      case Some(t) =>
        match ItemsFound(p, orders)
        case None => None
        case Some(items) =>
          if items != [] then Some(seq(|items|, k requires 0 <= k < |items| => ItemRow(p, t, items[k])))
          else Some([FallbackRow(p, t)])
  }

  /** The expansion as a function of the payment, for the fetch loop. */
  function RowsOf(parse: ParseTime, orders: string -> OrderResult): Payment -> Option<seq<SaleRow>> {
    p => PaymentRows(p, parse, orders)
  }

  /** A payment whose order has items gives one row per item, named and priced from the
      item and classified by its name; every other payment that does not raise gives
      exactly one "未知商品"/"其他" row of quantity 1 priced at the payment's `total_money`.
      Every row carries the location, the payment's id, date, time and hour. */
  lemma PaymentRowsShape(p: Payment, parse: ParseTime, orders: string -> OrderResult)
    requires PaymentRows(p, parse, orders).Some?
    ensures p.createdAt.Some? && parse(p.createdAt.value).Some? && ItemsFound(p, orders).Some?
    ensures var t, items, rows := parse(p.createdAt.value).value, ItemsFound(p, orders).value, PaymentRows(p, parse, orders).value;
      (items != [] ==> (|rows| == |items|
        && forall k :: 0 <= k < |items| ==>
          rows[k].productName == items[k].name.GetOr(UnknownProduct)
          && rows[k].category == ProductCategory(rows[k].productName)
          && rows[k].quantity == items[k].quantity.GetOr(0.0)
          && rows[k].unitPrice == AmountOrZero(items[k].basePriceMoney) as real / 100.0
          && rows[k].total == AmountOrZero(items[k].totalMoney) as real / 100.0))
      && (items == [] ==> (|rows| == 1
        && rows[0].productName == UnknownProduct && rows[0].category == "其他" && rows[0].quantity == 1.0
        && rows[0].unitPrice == rows[0].total == AmountOrZero(p.totalMoney) as real / 100.0))
      && forall k :: 0 <= k < |rows| ==>
        rows[k].location == "LMDN6Z5DKNJ2P" && rows[k].transactionId == p.id
        && rows[k].date == t.date && rows[k].time == t.time && rows[k].hour == t.hour
  {
  }

  /** `get_sales_data`: the fetch loop with this script's expansion; None on any exception. */
  method GetSalesData(beginTime: string, endTime: string, pages: seq<PageResult>,
                      parse: ParseTime, orders: string -> OrderResult)
    returns (data: Option<seq<SaleRow>>, totalPayments: nat)
    requires Terminates(pages)
    ensures data == Fetched(pages, RowsOf(parse, orders))
    ensures data.Some? ==> totalPayments == |Listed(pages).value|
  {
    var calls;
    data, totalPayments, calls := FetchSales(beginTime, endTime, LocationIds[0], pages, RowsOf(parse, orders));
  }

  // ---------------------------------------------------------------------------
  // analyze_sales: the figures

  function DateOf(r: SaleRow): string { r.date }
  function HourOf(r: SaleRow): nat { r.hour }
  function TransactionOf(r: SaleRow): string { r.transactionId }
  function ProductOf(r: SaleRow): string { r.productName }
  function CategoryOf(r: SaleRow): string { r.category }
  function AmountOf(r: SaleRow): real { r.total }
  function QuantityOf(r: SaleRow): real { r.quantity }

  /** 每日銷售趨勢: for each date present, the sum of 總金額 over its rows. */
  function DailySales(rows: seq<SaleRow>): (m: map<string, real>)
    ensures forall d :: d in m <==> exists i :: 0 <= i < |rows| && rows[i].date == d
    ensures forall d :: d in m ==> m[d] == SumWhere(rows, DateOf, d, AmountOf)
  {
    GroupSum(rows, DateOf, AmountOf)
  }

  lemma CategoriesPresent(rows: seq<SaleRow>)
    ensures forall c :: HasKey(rows, CategoryOf, c) <==> exists i :: 0 <= i < |rows| && rows[i].category == c
  {
    forall c ensures HasKey(rows, CategoryOf, c) <==> exists i :: 0 <= i < |rows| && rows[i].category == c {
      if exists i :: 0 <= i < |rows| && rows[i].category == c {
        var i :| 0 <= i < |rows| && rows[i].category == c;
        assert CategoryOf(rows[i]) == c;
      }
    }
  }

  /** One line of the category analysis: 銷售額, 銷售數量, 訂單數. */
  datatype CategoryStats = CategoryStats(sales: real, quantity: real, orders: nat)

  /** 商品類別分析: per category present, the sum of 總金額, the sum of 數量 and the number
      of distinct transactions. (商品類別銷售分布 is its first column.) */
  function CategoryAnalysis(rows: seq<SaleRow>): (m: map<string, CategoryStats>)
    ensures forall c :: c in m <==> exists i :: 0 <= i < |rows| && rows[i].category == c
    ensures forall c :: c in m ==>
      m[c].sales == SumWhere(rows, CategoryOf, c, AmountOf)
      && m[c].quantity == SumWhere(rows, CategoryOf, c, QuantityOf)
      && m[c].orders == |IdsWhere(rows, CategoryOf, c, TransactionOf)|
  {
    var sales := GroupSum(rows, CategoryOf, AmountOf);
    CategoriesPresent(rows);
    map c | c in sales :: CategoryStats(sales[c], SumWhere(rows, CategoryOf, c, QuantityOf),
      |IdsWhere(rows, CategoryOf, c, TransactionOf)|)
  }

  /** 每小時客流量: per hour present, the number of distinct transactions. */
  function HourlyTraffic(rows: seq<SaleRow>): (m: map<nat, nat>)
    ensures forall h :: h in m <==> exists i :: 0 <= i < |rows| && rows[i].hour == h
    ensures forall h :: h in m ==> m[h] == |IdsWhere(rows, HourOf, h, TransactionOf)|
  {
    var ids := GroupIds(rows, HourOf, TransactionOf);
    map h | h in ids :: |ids[h]|
  }

  /** 尖峰時段: an hour of some row whose traffic no other hour exceeds, the earliest such
      hour on a tie. */
  function PeakHour(rows: seq<SaleRow>): (peak: nat)
    requires |rows| > 0
    ensures exists i :: 0 <= i < |rows| && rows[i].hour == peak
    ensures forall i :: 0 <= i < |rows| ==>
      |IdsWhere(rows, HourOf, rows[i].hour, TransactionOf)| <= |IdsWhere(rows, HourOf, peak, TransactionOf)|
    ensures forall i :: (0 <= i < |rows| &&
      |IdsWhere(rows, HourOf, rows[i].hour, TransactionOf)| == |IdsWhere(rows, HourOf, peak, TransactionOf)|) ==>
      peak <= rows[i].hour
  {
    var hours := Keys(rows, HourOf);
    KeysMembers(rows, HourOf);
    assert HasKey(rows, HourOf, rows[0].hour);
    var peak := ArgMax(hours, (h: nat) => |IdsWhere(rows, HourOf, h, TransactionOf)| as real);
    assert forall i :: 0 <= i < |rows| ==> rows[i].hour in hours by {
      forall i | 0 <= i < |rows| ensures rows[i].hour in hours {
        assert HasKey(rows, HourOf, rows[i].hour);
      }
    }
    peak
  }

  /** The average order value of one hour: the hour's 總金額 over its distinct
      transactions (0 for an hour without rows). */
  function HourlyAverage(rows: seq<SaleRow>, h: nat): real {
    var orders := |IdsWhere(rows, HourOf, h, TransactionOf)|;
    if orders == 0 then 0.0 else SumWhere(rows, HourOf, h, AmountOf) / orders as real
  }

  /** An hour that occurs has at least one transaction, so its average is the true
      quotient of its sales by its transaction count. */
  lemma HourlyAverageDefined(rows: seq<SaleRow>, i: nat)
    requires i < |rows|
    ensures |IdsWhere(rows, HourOf, rows[i].hour, TransactionOf)| >= 1
    ensures HourlyAverage(rows, rows[i].hour) ==
      SumWhere(rows, HourOf, rows[i].hour, AmountOf) / |IdsWhere(rows, HourOf, rows[i].hour, TransactionOf)| as real
  {
    IdsWhereHas(rows, HourOf, TransactionOf, i);
    assert TransactionOf(rows[i]) in IdsWhere(rows, HourOf, HourOf(rows[i]), TransactionOf);
  }

  /** 最高客單價時段: an hour of some row whose average order value no other hour exceeds,
      the earliest such hour on a tie. */
  function BestAverageHour(rows: seq<SaleRow>): (best: nat)
    requires |rows| > 0
    ensures exists i :: 0 <= i < |rows| && rows[i].hour == best
    ensures forall i :: 0 <= i < |rows| ==> HourlyAverage(rows, rows[i].hour) <= HourlyAverage(rows, best)
    ensures forall i :: 0 <= i < |rows| && HourlyAverage(rows, rows[i].hour) == HourlyAverage(rows, best) ==>
      best <= rows[i].hour
  {
    var hours := Keys(rows, HourOf);
    KeysMembers(rows, HourOf);
    assert HasKey(rows, HourOf, rows[0].hour);
    var best := ArgMax(hours, (h: nat) => HourlyAverage(rows, h));
    assert forall i :: 0 <= i < |rows| ==> rows[i].hour in hours by {
      forall i | 0 <= i < |rows| ensures rows[i].hour in hours {
        assert HasKey(rows, HourOf, rows[i].hour);
      }
    }
    best
  }

  function SalesOf(entry: (string, real)): real { entry.1 }

  /** Each product with the sum of its 總金額, in order of first appearance. */
  function ProductSales(rows: seq<SaleRow>): (ps: seq<(string, real)>)
    ensures forall i, j :: 0 <= i < j < |ps| ==> ps[i].0 != ps[j].0
    ensures KeySet(ps, NameOf) == KeySet(rows, ProductOf)
    ensures forall i :: 0 <= i < |ps| ==> ps[i].1 == SumWhere(rows, ProductOf, ps[i].0, AmountOf)
    ensures |ps| == |Keys(rows, ProductOf)|
    ensures forall i :: 0 <= i < |ps| ==> ps[i] == (Keys(rows, ProductOf)[i], SumWhere(rows, ProductOf, Keys(rows, ProductOf)[i], AmountOf))
  {
    var names := Keys(rows, ProductOf);
    KeysMembers(rows, ProductOf);
    var ps := seq(|names|, i requires 0 <= i < |names| => (names[i], SumWhere(rows, ProductOf, names[i], AmountOf)));
    LabelsAreKeys(rows, ProductOf, ps, NameOf);
    ps
  }

  function NameOf(p: (string, real)): string { p.0 }

  /** 熱門商品 Top 10: the ten best-selling products (all, when there are fewer), in
      ascending order of sales; every product left out sold no more than every product
      shown. */
  function TopProducts(rows: seq<SaleRow>): (top: seq<(string, real)>)
    ensures |top| == (if |ProductSales(rows)| <= 10 then |ProductSales(rows)| else 10)
    ensures SortedBy(top, SalesOf)
    ensures multiset(top) <= multiset(ProductSales(rows))
    ensures forall x, y :: x in ProductSales(rows) && x !in top && y in top ==> SalesOf(x) <= SalesOf(y)
  {
    TopDominates(ProductSales(rows), SalesOf, 10);
    Top(ProductSales(rows), SalesOf, 10)
  }

  /** The per-transaction sums of 總金額, one per distinct transaction. */
  function OrderTotals(rows: seq<SaleRow>): seq<real> {
    GroupTotals(rows, TransactionOf, AmountOf, Keys(rows, TransactionOf))
  }

  /** 平均客單價, the mean of the per-transaction sums, is the total sales divided by the
      number of distinct transactions. */
  lemma AverageOrderValue(rows: seq<SaleRow>)
    requires |rows| > 0
    ensures |OrderTotals(rows)| == |Keys(rows, TransactionOf)| > 0
    ensures Mean(OrderTotals(rows)) == Total(rows, AmountOf) / |OrderTotals(rows)| as real
  {
    KeysMembers(rows, TransactionOf);
    assert HasKey(rows, TransactionOf, rows[0].transactionId);
    GroupTotalsConserve(rows, TransactionOf, AmountOf);
  }

  /** The report: 總銷售額, 總訂單數 and 平均客單價, the four breakdowns, 尖峰時段 and
      最高客單價時段 with its average. */
  datatype Report = Report(
    totalSales: real,
    orderCount: nat,
    averageOrderValue: real,
    dailySales: map<string, real>,
    categories: map<string, CategoryStats>,
    hourlyTraffic: map<nat, nat>,
    topProducts: seq<(string, real)>,
    peakHour: nat,
    bestAverageHour: nat,
    bestAverage: real)

  /** `analyze_sales`: nothing for a missing or empty frame, the figures otherwise. */
  function Analyze(data: Option<seq<SaleRow>>): (r: Option<Report>)
    ensures r.None? <==> data.None? || data.value == []
    ensures r.Some? ==> r.value.totalSales == Total(data.value, AmountOf)
    ensures r.Some? ==> r.value.orderCount == |Keys(data.value, TransactionOf)| > 0
    ensures r.Some? ==> r.value.averageOrderValue == Total(data.value, AmountOf) / r.value.orderCount as real
  {
    if data.None? || data.value == [] then None
    else
      var rows := data.value;
      AverageOrderValue(rows);
      var orders := OrderTotals(rows);
      var best := BestAverageHour(rows);
      Some(Report(Total(rows, AmountOf), |orders|, Mean(orders), DailySales(rows), CategoryAnalysis(rows),
        HourlyTraffic(rows), TopProducts(rows), PeakHour(rows), best, HourlyAverage(rows, best)))
  }
}
