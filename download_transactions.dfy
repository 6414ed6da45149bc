/** The download script: it lists the payments of one location page by page, stores
    them in the transactions table (one row per payment id) and expands each payment
    into sales lines from its order, which it appends to the sales table.

    The two tables are the fields of `SalesDatabase`; the payments client is the
    sequence of its responses and an order-lookup function (see `Square`). */
module DownloadTransactions {
  import opened Wrappers
  import opened Text
  import opened Seqs
  import opened Square

  // ---------------------------------------------------------------------------
  // download_transactions: the cursor-following paginator

  /** `download_transactions`: call "list payments" with no cursor, then with each
      response's cursor, until a response has no cursor or is a failure envelope; an
      exception discards everything and gives the empty list. */
  method DownloadPayments(beginTime: string, endTime: string, locationId: string, pages: seq<PageResult>)
    returns (payments: seq<Payment>, calls: seq<Request>)
    requires Terminates(pages)
    ensures payments == Listed(pages).GetOr([])
    ensures calls == Calls(beginTime, endTime, locationId, pages)
  {
    ghost var n := StopIndex(pages);
    ghost var all := Calls(beginTime, endTime, locationId, pages);
    payments := [];
    calls := [];
    var cursor: Option<string> := None;
    var i := 0;
    while true
      invariant 0 <= i <= n
      invariant payments == PagesBefore(pages, i)
      invariant calls == all[..i]
      invariant cursor == (if i == 0 then None else pages[i - 1].cursor)
      decreases n - i
    {
      var result := pages[i];
      calls := calls + [Request(beginTime, endTime, locationId, cursor, PageLimit)];
      assert calls == all[..i + 1];
      PagesBeforeStep(pages, i);
      if result.PageRaised? {
        return [], calls;
      }
      if result.PageFailed? {
        return;
      }
      payments := payments + result.payments;
      cursor := result.cursor;
      if !Truthy(cursor) {
        return;
      }
      i := i + 1;
    }
  }

  // ---------------------------------------------------------------------------
  // get_product_category

  const Staple: string := "主食"
  const Drink: string := "飲品"
  const Dessert: string := "甜點"
  const Snack: string := "零食"
  const Merchandise: string := "商品"
  const OtherCategory: string := "其他"

  /** The six labels a product can receive. */
  const Labels: set<string> := {Staple, Drink, Dessert, Snack, Merchandise, OtherCategory}

  /** `get_product_category`: lower-case the name and take the first rule that matches. */
  function ProductCategory(productName: string): (r: string)
    ensures r in Labels
  {
    var name := Lower(productName);
    if Contains(name, "noodle") || Contains(name, "麵") then Staple
    else if Contains(name, "rice") || Contains(name, "飯") then Staple
    else if Contains(name, "tea") || Contains(name, "茶") then Drink
    else if Contains(name, "coffee") || Contains(name, "咖啡") then Drink
    else if Contains(name, "cake") || Contains(name, "蛋糕") then Dessert
    else if Contains(name, "cookie") || Contains(name, "餅乾") then Snack
    else if Contains(name, "mug") || Contains(name, "杯") then Merchandise
    else OtherCategory
  }

  /** One classification rule: an English and a Chinese word, and the label they give. */
  datatype Rule = Rule(english: string, chinese: string, category: string)

  /** The rules of the classifier as a table, in the order they are tried. */
  const Rules: seq<Rule> := [
    Rule("noodle", "麵", Staple),
    Rule("rice", "飯", Staple),
    Rule("tea", "茶", Drink),
    Rule("coffee", "咖啡", Drink),
    Rule("cake", "蛋糕", Dessert),
    Rule("cookie", "餅乾", Snack),
    Rule("mug", "杯", Merchandise)
  ]

  predicate Matches(name: string, rule: Rule) {
    Contains(name, rule.english) || Contains(name, rule.chinese)
  }

  /** The category of the first rule of `rules`, from position `from` on, that matches. */
  function FirstMatch(name: string, rules: seq<Rule>, from: nat): (r: Option<string>)
    requires from <= |rules|
    ensures r.None? <==> forall i :: from <= i < |rules| ==> !Matches(name, rules[i])
    ensures r.Some? ==> exists i :: (from <= i < |rules| && Matches(name, rules[i]) && rules[i].category == r.value
      && forall j :: from <= j < i ==> !Matches(name, rules[j]))
    decreases |rules| - from
  {
    if from == |rules| then None
    else if Matches(name, rules[from]) then Some(rules[from].category)
    else FirstMatch(name, rules, from + 1)
  }

  lemma FirstMatchAt(name: string, rules: seq<Rule>, from: nat)
    requires from < |rules|
    ensures FirstMatch(name, rules, from) ==
      if Matches(name, rules[from]) then Some(rules[from].category) else FirstMatch(name, rules, from + 1)
  {
  }

  /** The classifier is the rule table read top to bottom, with "其他" when no rule matches. */
  lemma ProductCategoryFollowsRules(productName: string)
    ensures ProductCategory(productName) == FirstMatch(Lower(productName), Rules, 0).GetOr(OtherCategory)
  {
    var n := Lower(productName);
    FirstMatchAt(n, Rules, 0);
    FirstMatchAt(n, Rules, 1);
    FirstMatchAt(n, Rules, 2);
    FirstMatchAt(n, Rules, 3);
    FirstMatchAt(n, Rules, 4);
    FirstMatchAt(n, Rules, 5);
    FirstMatchAt(n, Rules, 6);
  }

  /** "其他" is given exactly to the names that no rule matches. */
  lemma OtherIffNoRuleMatches(productName: string)
    ensures ProductCategory(productName) == OtherCategory <==>
      forall i :: 0 <= i < |Rules| ==> !Matches(Lower(productName), Rules[i])
  {
    ProductCategoryFollowsRules(productName);
    var r := FirstMatch(Lower(productName), Rules, 0);
    if r.Some? {
      var i :| 0 <= i < |Rules| && Rules[i].category == r.value;
      assert Rules[i].category != OtherCategory;
    }
  }

  /** The rules are tried in order: "tea rice" is a staple (rice comes before tea) and
      "茶杯" a drink (tea comes before mug); the test ignores ASCII case. */
  lemma RiceExample(a: string)
    requires a == "tea rice"
    ensures ProductCategory(a) == Staple
  {
    LowerIs(a, a);
    Absent(a, "noodle", 'n');
    Absent(a, "麵", '麵');
    assert OccursAt(a, "rice", 4);
  }

  lemma CupExample(b: string)
    requires b == "茶杯"
    ensures ProductCategory(b) == Drink
  {
    LowerIs(b, b);
    Absent(b, "noodle", 'n');
    Absent(b, "麵", '麵');
    Absent(b, "rice", 'r');
    Absent(b, "飯", '飯');
    assert OccursAt(b, "茶", 0);
  }

  lemma IcedTeaExample(c: string)
    requires c == "Iced TEA"
    ensures ProductCategory(c) == Drink
  {
    var lc := "iced tea";
    LowerIs(c, lc);
    Absent(lc, "noodle", 'n');
    Absent(lc, "麵", '麵');
    Absent(lc, "rice", 'r');
    Absent(lc, "飯", '飯');
    assert OccursAt(lc, "tea", 5);
  }

  // ---------------------------------------------------------------------------
  // The two tables

  /** A row of the transactions table. */
  datatype TransactionRow = TransactionRow(
    amount: Option<int>,
    currency: Option<string>,
    createdAt: Option<string>,
    status: Option<string>,
    orderId: Option<string>,
    receiptNumber: Option<string>,
    sourceType: Option<string>)

  /** The row a payment is stored as (`amount_money` absent reads as `{}`). */
  function RowOf(p: Payment): TransactionRow {
    var amount := if p.amountMoney.Some? then p.amountMoney.value.amount else None;
    var currency := if p.amountMoney.Some? then p.amountMoney.value.currency else None;
    TransactionRow(amount, currency, p.createdAt, p.status, p.orderId, p.receiptNumber, p.sourceType)
  }

  /** A row of the sales table (its autoincrement key is the position in the sequence). */
  datatype SalesRecord = SalesRecord(
    transactionId: string,
    storeId: string,
    date: string,
    time: string,
    productName: string,
    productCategory: string,
    quantity: real,
    unitPrice: real,
    totalAmount: real)

  /** `INSERT OR REPLACE` of each payment in turn, keyed by payment id. */
  function Upsert(table: map<string, TransactionRow>, txns: seq<Payment>): map<string, TransactionRow> {
    if txns == [] then table
    else
      var last := txns[|txns| - 1];
      Upsert(table, txns[..|txns| - 1])[last.id := RowOf(last)]
  }

  predicate HasId(txns: seq<Payment>, id: string) {
    exists i :: 0 <= i < |txns| && txns[i].id == id
  }

  /** The position of the last payment with the given id. */
  function LastWithId(txns: seq<Payment>, id: string): (i: nat)
    requires HasId(txns, id)
    ensures i < |txns| && txns[i].id == id
    ensures forall j :: i < j < |txns| ==> txns[j].id != id
  {
    if txns[|txns| - 1].id == id then |txns| - 1
    else
      assert HasId(txns[..|txns| - 1], id) by {
        var k :| 0 <= k < |txns| && txns[k].id == id;
        assert txns[..|txns| - 1][k] == txns[k];
      }
      LastWithId(txns[..|txns| - 1], id)
  }

  /** After the upsert each id of the batch holds the fields of the last payment with that
      id, and every other row is as it was. */
  lemma {:induction false} UpsertLastWins(table: map<string, TransactionRow>, txns: seq<Payment>, id: string)
    ensures id in Upsert(table, txns) <==> id in table || HasId(txns, id)
    ensures HasId(txns, id) ==> Upsert(table, txns)[id] == RowOf(txns[LastWithId(txns, id)])
    ensures !HasId(txns, id) && id in table ==> Upsert(table, txns)[id] == table[id]
  {
    if txns != [] {
      var init := txns[..|txns| - 1];
      UpsertLastWins(table, init, id);
      assert HasId(txns, id) <==> HasId(init, id) || txns[|txns| - 1].id == id by {
        if HasId(txns, id) {
          var k :| 0 <= k < |txns| && txns[k].id == id;
          if k < |init| { assert init[k] == txns[k]; }
        }
        if HasId(init, id) {
          var k :| 0 <= k < |init| && init[k].id == id;
          assert txns[k] == init[k];
        }
      }
    }
  }

  /** Inserting the same batch twice leaves the table as inserting it once. */
  lemma UpsertIdempotent(table: map<string, TransactionRow>, txns: seq<Payment>)
    ensures Upsert(Upsert(table, txns), txns) == Upsert(table, txns)
  {
    var once := Upsert(table, txns);
    var twice := Upsert(once, txns);
    forall id ensures (id in twice <==> id in once) && (id in once ==> twice[id] == once[id]) {
      UpsertLastWins(table, txns, id);
      UpsertLastWins(once, txns, id);
    }
  }

  /** The database file the script writes: the transactions table, keyed by payment id,
      and the sales table, in insertion order. */
  class SalesDatabase {
    var transactions: map<string, TransactionRow>
    var sales: seq<SalesRecord>

    /** `create_db` on a new file: both tables exist and are empty. */
    constructor ()
      ensures transactions == map[] && sales == []
    {
      transactions := map[];
      sales := [];
    }

    /** `insert_transactions`. */
    method InsertTransactions(txns: seq<Payment>)
      modifies this
      ensures transactions == Upsert(old(transactions), txns)
      ensures sales == old(sales)
    {
      var i := 0;
      while i < |txns|
        invariant 0 <= i <= |txns|
        invariant transactions == Upsert(old(transactions), txns[..i])
        invariant sales == old(sales)
      {
        var txn := txns[i];
        transactions := transactions[txn.id := RowOf(txn)];
        assert txns[..i + 1][..i] == txns[..i];
        i := i + 1;
      }
      assert txns[..|txns|] == txns;
    }

    /** `insert_sales_data`: one new row per record, in order; nothing is de-duplicated. */
    method InsertSalesData(records: seq<SalesRecord>)
      modifies this
      ensures sales == old(sales) + records
      ensures transactions == old(transactions)
    {
      var i := 0;
      while i < |records|
        invariant 0 <= i <= |records|
        invariant sales == old(sales) + records[..i]
        invariant transactions == old(transactions)
      {
        sales := sales + [records[i]];
        assert records[..i + 1] == records[..i] + [records[i]];
        i := i + 1;
      }
      assert records[..|records|] == records;
    }
  }

  // ---------------------------------------------------------------------------
  // The expansion of payments into sales lines (inside `main`)

  /** The fixed location the script downloads. */
  const LocationId: string := "LMDN6Z5DKNJ2P"

  const UnknownProduct: string := "未知商品"

  /** The one line of a payment without usable line items: its `amount_money`. */
  function FallbackLine(p: Payment, t: LocalTime): SalesRecord {
    var total := Major(AmountOrZero(p.amountMoney));
    SalesRecord(p.id, LocationId, t.date, t.time, UnknownProduct, OtherCategory, 1.0, total, total)
  }

  /** The line of one order item. */
  function ItemLine(p: Payment, t: LocalTime, item: LineItem): SalesRecord {
    var name := item.name.GetOr(UnknownProduct);
    SalesRecord(p.id, LocationId, t.date, t.time, name, ProductCategory(name),
      item.quantity.GetOr(0.0), Major(AmountOrZero(item.basePriceMoney)), Major(AmountOrZero(item.totalMoney)))
  }

  /** One line per item, in item order: the item's name ("未知商品" when absent) and its
      category, its quantity (0 when absent), and its base price and total in major units
      (0 when absent), all under the payment's id, the location and the payment's time. */
  function ItemLines(p: Payment, t: LocalTime, items: seq<LineItem>): (r: seq<SalesRecord>)
    ensures |r| == |items|
    ensures forall k :: 0 <= k < |items| ==>
      && r[k].transactionId == p.id && r[k].storeId == LocationId
      && r[k].date == t.date && r[k].time == t.time
      && r[k].productName == items[k].name.GetOr(UnknownProduct)
      && r[k].productCategory == ProductCategory(r[k].productName)
      && r[k].quantity == items[k].quantity.GetOr(0.0)
      && r[k].unitPrice == AmountOrZero(items[k].basePriceMoney) as real / 100.0
      && r[k].totalAmount == AmountOrZero(items[k].totalMoney) as real / 100.0
  {
    seq(|items|, k requires 0 <= k < |items| => ItemLine(p, t, items[k]))
  }

  /** The time of a payment; None when `created_at` is absent or does not parse (both
      raise inside the `try`, and the payment is skipped). */
  function PaymentTime(p: Payment, parse: ParseTime): Option<LocalTime> {
    if p.createdAt.Some? then parse(p.createdAt.value) else None
  }

  /** The line items of a successful lookup (`order` and `line_items` default to empty). */
  function ItemsOf(order: Option<Order>): seq<LineItem> {
    if order.Some? then order.value.lineItems else []
  }

  /** The lines one payment contributes, or None when the order lookup raises (the
      exception is not caught there and ends the script). */
  function TransactionLines(p: Payment, parse: ParseTime, orders: string -> OrderResult): Option<seq<SalesRecord>> {
    match PaymentTime(p, parse)
    case None => Some([])
    case Some(t) =>
      if Truthy(p.orderId) then
        match orders(p.orderId.value)
        case OrderRaised => None
        case OrderFailed => Some([FallbackLine(p, t)])
        case OrderFound(order) =>
          var items := ItemsOf(order);
          if items != [] then Some(ItemLines(p, t, items)) else Some([FallbackLine(p, t)])
      else Some([FallbackLine(p, t)])
  }

  /** How many lines a payment contributes: none when its time does not parse, one per
      item when its order has items, and otherwise exactly one line for the whole amount. */
  lemma LineCount(p: Payment, parse: ParseTime, orders: string -> OrderResult)
    ensures PaymentTime(p, parse).None? ==> TransactionLines(p, parse, orders) == Some([])
    ensures (PaymentTime(p, parse).Some? && Truthy(p.orderId) && orders(p.orderId.value).OrderFound?
      && ItemsOf(orders(p.orderId.value).order) != []) ==>
        TransactionLines(p, parse, orders).Some?
        && |TransactionLines(p, parse, orders).value| == |ItemsOf(orders(p.orderId.value).order)|
    ensures (PaymentTime(p, parse).Some? && !(Truthy(p.orderId) && orders(p.orderId.value).OrderRaised?)
      && !(Truthy(p.orderId) && orders(p.orderId.value).OrderFound? && ItemsOf(orders(p.orderId.value).order) != [])) ==>
        TransactionLines(p, parse, orders) == Some([FallbackLine(p, PaymentTime(p, parse).value)])
  {
  }

  /** Every line names its payment, the location, the payment's local date and time, and
      a known category; a fallback line is one unknown product priced at the payment's
      amount. */
  lemma LinesCarryPayment(p: Payment, parse: ParseTime, orders: string -> OrderResult)
    requires TransactionLines(p, parse, orders).Some?
    ensures var lines := TransactionLines(p, parse, orders).value;
      forall k :: 0 <= k < |lines| ==>
        lines[k].transactionId == p.id && lines[k].storeId == LocationId
        && lines[k].date == PaymentTime(p, parse).value.date && lines[k].time == PaymentTime(p, parse).value.time
        && lines[k].productCategory in Labels
    ensures (PaymentTime(p, parse).Some? && Truthy(p.orderId) && orders(p.orderId.value).OrderFound?
      && ItemsOf(orders(p.orderId.value).order) != []) ==>
        var items := ItemsOf(orders(p.orderId.value).order);
        var lines := TransactionLines(p, parse, orders).value;
        && |lines| == |items|
        && forall k :: 0 <= k < |items| ==>
          && lines[k].productName == items[k].name.GetOr(UnknownProduct)
          && lines[k].productCategory == ProductCategory(lines[k].productName)
          && lines[k].quantity == items[k].quantity.GetOr(0.0)
          && lines[k].unitPrice == AmountOrZero(items[k].basePriceMoney) as real / 100.0
          && lines[k].totalAmount == AmountOrZero(items[k].totalMoney) as real / 100.0
  {
  }

  /** A fallback line: "未知商品", "其他", quantity 1, unit price and total both the
      payment's `amount_money` in major units (0 when absent). */
  lemma FallbackLineFields(p: Payment, t: LocalTime)
    ensures var line := FallbackLine(p, t);
      line.productName == UnknownProduct && line.productCategory == OtherCategory && line.quantity == 1.0
      && line.unitPrice == line.totalAmount == AmountOrZero(p.amountMoney) as real / 100.0
  {
  }

  /** The expansion of every payment of the batch: all lines in order, or None when one
      order lookup raises. */
  function AllLines(txns: seq<Payment>, parse: ParseTime, orders: string -> OrderResult): (r: Option<seq<SalesRecord>>)
    ensures r.None? <==> exists i :: 0 <= i < |txns| && TransactionLines(txns[i], parse, orders).None?
  {
    var each := seq(|txns|, i requires 0 <= i < |txns| => TransactionLines(txns[i], parse, orders));
    assert forall i :: 0 <= i < |txns| ==> each[i] == TransactionLines(txns[i], parse, orders);
    Collect(each)
  }

  /** The per-item loop of `main`. */
  method AppendItemLines(records: seq<SalesRecord>, p: Payment, t: LocalTime, items: seq<LineItem>)
    returns (out: seq<SalesRecord>)
    ensures out == records + ItemLines(p, t, items)
  {
    out := records;
    var k := 0;
    while k < |items|
      invariant 0 <= k <= |items|
      invariant out == records + ItemLines(p, t, items)[..k]
    {
      out := out + [ItemLine(p, t, items[k])];
      assert ItemLines(p, t, items)[..k + 1] == ItemLines(p, t, items)[..k] + [ItemLine(p, t, items[k])];
      k := k + 1;
    }
    assert ItemLines(p, t, items)[..|items|] == ItemLines(p, t, items);
  }

  /** The expansion loop of `main`: the lines of each payment in turn; None when an order
      lookup raises. */
  method ExpandPayments(txns: seq<Payment>, parse: ParseTime, orders: string -> OrderResult)
    returns (lines: Option<seq<SalesRecord>>)
    ensures lines == AllLines(txns, parse, orders)
  {
    ghost var each := seq(|txns|, i requires 0 <= i < |txns| => TransactionLines(txns[i], parse, orders));
    var records: seq<SalesRecord> := [];
    var i := 0;
    while i < |txns|
      invariant 0 <= i <= |txns|
      invariant Collect(each[..i]) == Some(records)
    {
      var txn := txns[i];
      CollectStep(each, i);
      assert each[i] == TransactionLines(txn, parse, orders);
      var time := PaymentTime(txn, parse);
      if time.Some? {
        var t := time.value;
        if Truthy(txn.orderId) {
          var result := orders(txn.orderId.value);
          if result.OrderRaised? {
            assert each[i].None?;
            CollectPrefixNone(each, i + 1);
            return None;
          }
          var items := if result.OrderFound? then ItemsOf(result.order) else [];
          if items != [] {
            assert each[i] == Some(ItemLines(txn, t, items));
            records := AppendItemLines(records, txn, t, items);
          } else {
            assert each[i] == Some([FallbackLine(txn, t)]);
            records := records + [FallbackLine(txn, t)];
          }
        } else {
          assert each[i] == Some([FallbackLine(txn, t)]);
          records := records + [FallbackLine(txn, t)];
        }
      } else {
        assert each[i] == Some([]);
        assert records + [] == records;
      }
      i := i + 1;
    }
    assert each[..|txns|] == each;
    lines := Some(records);
  }

  lemma CollectPrefixNone<T>(xs: seq<Option<seq<T>>>, n: nat)
    requires n <= |xs| && Collect(xs[..n]).None?
    ensures Collect(xs).None?
  {
    var i :| 0 <= i < n && xs[..n][i].None?;
    assert xs[i].None?;
  }

  // ---------------------------------------------------------------------------
  // The start of the download window

  /** The default start: midnight of 2024-04-01 with the pytz zone Asia/Taipei attached
      directly as `tzinfo`, in seconds since the epoch. A pytz zone attached that way
      carries its first offset, local mean time +08:06, not standard time +08:00, so the
      instant is 15:54:00 UTC on the day before: six minutes before Taipei midnight. */
  const DefaultBegin: int := 1711900440

  /** Days from 1970-01-01 to a date of the proleptic Gregorian calendar (year 1 on). */
  function DaysFromCivil(year: nat, month: nat, day: nat): int
    requires year >= 1 && 1 <= month <= 12 && 1 <= day <= 31
  {
    var y := if month <= 2 then year - 1 else year;
    var era := y / 400;
    var yoe := y - era * 400;
    var doy := (153 * (if month > 2 then month - 3 else month + 9) + 2) / 5 + day - 1;
    var doe := yoe * 365 + yoe / 4 - yoe / 100 + doy;
    era * 146097 + doe - 719468
  }

  /** Local midnight at a UTC offset of `offsetMinutes`, in seconds since the epoch. */
  function LocalMidnight(year: nat, month: nat, day: nat, offsetMinutes: int): int
    requires year >= 1 && 1 <= month <= 12 && 1 <= day <= 31
  {
    DaysFromCivil(year, month, day) * 86400 - offsetMinutes * 60
  }

  /** The default start is 2024-04-01 00:00 at +08:06, six minutes before 00:00 at +08:00. */
  lemma DefaultBeginIsLocalMeanMidnight()
    ensures DaysFromCivil(1970, 1, 1) == 0
    ensures DefaultBegin == LocalMidnight(2024, 4, 1, 8 * 60 + 6)
    ensures DefaultBegin == LocalMidnight(2024, 4, 1, 8 * 60) - 6 * 60
  {
  }

  /** What the resume mode finds when it reads `MAX(created_at)` of the transactions table. */
  datatype StoredMaximum = NoDatabase | ReadFailed | NoRows | Latest(createdAt: string)

  /** The start of the window: in mode "2", one second after the newest stored payment
      when there is one and its time parses; the default start in every other case
      (mode "1", any other input, no database, an empty table, a read or parse error). */
  function BeginTime(mode: string, stored: StoredMaximum, parse: ParseTime): (begin: int)
    ensures begin == DefaultBegin || (mode == "2" && stored.Latest? && parse(stored.createdAt).Some?)
  {
    if mode == "2" && stored.Latest? then
      match parse(stored.createdAt)
      case Some(t) => t.epoch + 1
      case None => DefaultBegin
    else DefaultBegin
  }

  /** Resuming starts strictly after the newest stored payment, and by exactly one second. */
  lemma ResumeStartsAfterLatest(stored: StoredMaximum, parse: ParseTime)
    requires stored.Latest? && parse(stored.createdAt).Some?
    ensures BeginTime("2", stored, parse) == parse(stored.createdAt).value.epoch + 1
    ensures BeginTime("2", stored, parse) > parse(stored.createdAt).value.epoch
  {
  }

  /** Every mode but "2", and mode "2" without a usable stored maximum, start at the default. */
  lemma OtherwiseDefaultBegin(mode: string, stored: StoredMaximum, parse: ParseTime)
    requires mode != "2" || !stored.Latest? || parse(stored.createdAt).None?
    ensures BeginTime(mode, stored, parse) == DefaultBegin
  {
  }

  // ---------------------------------------------------------------------------
  // main, after the download

  /** How a run of `main` ends once the payments are in hand. */
  datatype RunOutcome = NothingDownloaded | Stored(lines: nat) | LookupCrashed

  /** The storing half of `main`: with no payment nothing is written (the database is not
      even opened); otherwise every payment is upserted first, then the expansion runs and
      its lines are appended; a raising lookup ends the run with the transactions stored
      and no sales line added. */
  method StoreDownload(db: SalesDatabase, txns: seq<Payment>, parse: ParseTime, orders: string -> OrderResult)
    returns (outcome: RunOutcome)
    modifies db
    ensures txns == [] ==> outcome == NothingDownloaded && db.transactions == old(db.transactions) && db.sales == old(db.sales)
    ensures txns != [] ==> db.transactions == Upsert(old(db.transactions), txns)
    ensures txns != [] && AllLines(txns, parse, orders).None? ==> outcome == LookupCrashed && db.sales == old(db.sales)
    ensures txns != [] && AllLines(txns, parse, orders).Some? ==>
      outcome == Stored(|AllLines(txns, parse, orders).value|)
      && db.sales == old(db.sales) + AllLines(txns, parse, orders).value
  {
    if |txns| == 0 {
      return NothingDownloaded;
    }
    db.InsertTransactions(txns);
    var lines := ExpandPayments(txns, parse, orders);
    if lines.None? {
      return LookupCrashed;
    }
    if lines.value != [] {
      db.InsertSalesData(lines.value);
    }
    return Stored(|lines.value|);
  }
}
