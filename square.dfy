/** The payments platform as the scripts see it. The HTTP client is not modelled:
    a run of "list payments" calls is a finite sequence of responses, one per call,
    and "retrieve order" is a function from order identifier to response. Money is
    kept in integer minor units; `Major` gives the exact major-unit value. */
module Square {
  import opened Wrappers
  import opened Seqs

  /** A money object: `{"amount": <minor units>, "currency": ...}`; either key may be absent. */
  datatype Money = Money(amount: Option<int>, currency: Option<string>)

  /** `obj.get(field, {}).get("amount", 0)`: the amount, 0 when the object or the key is absent. */
  function AmountOrZero(m: Option<Money>): int {
    match m
    case None => 0
    case Some(money) => money.amount.GetOr(0)
  }

  /** `float(amount) / 100.0` with exact arithmetic. */
  function Major(minor: int): real {
    minor as real / 100.0
  }

  /** A payment object as the list call returns it (only the keys the scripts read). */
  datatype Payment = Payment(
    id: string,
    amountMoney: Option<Money>,
    totalMoney: Option<Money>,
    createdAt: Option<string>,
    status: Option<string>,
    orderId: Option<string>,
    receiptNumber: Option<string>,
    sourceType: Option<string>)

  /** One order line; `quantity` is the already-decoded `float(item["quantity"])`. */
  datatype LineItem = LineItem(
    name: Option<string>,
    quantity: Option<real>,
    basePriceMoney: Option<Money>,
    totalMoney: Option<Money>)

  /** An order; a missing `line_items` key is the empty list. */
  datatype Order = Order(lineItems: seq<LineItem>)

  /** The outcome of "retrieve order": a success envelope (whose `order` key may be
      absent), a failure envelope, or an exception raised by the client. */
  datatype OrderResult = OrderFound(order: Option<Order>) | OrderFailed | OrderRaised

  /** The outcome of one "list payments" call. */
  datatype PageResult =
    | PageOk(payments: seq<Payment>, cursor: Option<string>)
    | PageFailed
    | PageRaised

  /** Python truthiness of a cursor: present and not the empty string. */
  predicate Truthy(s: Option<string>) {
    s.Some? && s.value != ""
  }

  /** After this response the paginator makes no further call. */
  predicate EndsPaging(r: PageResult) {
    !(r.PageOk? && Truthy(r.cursor))
  }

  /** The run of responses reaches a response after which the loop stops. */
  predicate Terminates(pages: seq<PageResult>) {
    exists i :: 0 <= i < |pages| && EndsPaging(pages[i])
  }

  /** The index of the last call a paginator makes. */
  function StopIndex(pages: seq<PageResult>): (n: nat)
    requires Terminates(pages)
    ensures n < |pages| && EndsPaging(pages[n])
    ensures forall i :: 0 <= i < n ==> !EndsPaging(pages[i])
  {
    if EndsPaging(pages[0]) then 0
    else
      assert Terminates(pages[1..]) by {
        var i :| 0 <= i < |pages| && EndsPaging(pages[i]);
        assert pages[1..][i - 1] == pages[i];
      }
      1 + StopIndex(pages[1..])
  }

  /** The payments a response carries (a failure envelope carries none). */
  function PaymentsOf(r: PageResult): seq<Payment> {
    if r.PageOk? then r.payments else []
  }

  /** The payments of the first `n` responses, in order. */
  function PagesBefore(pages: seq<PageResult>, n: nat): seq<Payment>
    requires n <= |pages|
  {
    Flatten(seq(n, k requires 0 <= k < n => PaymentsOf(pages[k])))
  }

  lemma PagesBeforeStep(pages: seq<PageResult>, n: nat)
    requires n < |pages|
    ensures PagesBefore(pages, n + 1) == PagesBefore(pages, n) + PaymentsOf(pages[n])
  {
    assert seq(n + 1, k requires 0 <= k < n + 1 => PaymentsOf(pages[k]))[..n]
      == seq(n, k requires 0 <= k < n => PaymentsOf(pages[k]));
  }

  /** The first response's payments come first. */
  lemma {:induction false} PagesBeforeShift(pages: seq<PageResult>, n: nat)
    requires n < |pages|
    ensures PagesBefore(pages, n + 1) == PaymentsOf(pages[0]) + PagesBefore(pages[1..], n)
  {
    PagesBeforeStep(pages, n);
    if n == 0 {
      assert PagesBefore(pages, 0) == [] && PagesBefore(pages[1..], 0) == [];
    } else {
      PagesBeforeShift(pages, n - 1);
      PagesBeforeStep(pages[1..], n - 1);
      assert pages[1..][n - 1] == pages[n];
    }
  }

  /** What a cursor-following paginator collects: every response's payments in order up
      to and including the response after which it stops; nothing when that last call
      raised. A failure envelope stops the loop and keeps what came before it. */
  function Listed(pages: seq<PageResult>): (r: Option<seq<Payment>>)
    requires Terminates(pages)
    ensures r.None? <==> pages[StopIndex(pages)].PageRaised?
  {
    var n := StopIndex(pages);
    if pages[n].PageRaised? then None else Some(PagesBefore(pages, n + 1))
  }

  /** An earlier count of responses gives a prefix of the payments of a later one. */
  lemma {:induction false} PagesBeforePrefix(pages: seq<PageResult>, i: nat, m: nat)
    requires i <= m <= |pages|
    ensures PagesBefore(pages, i) <= PagesBefore(pages, m)
  {
    if i < m {
      PagesBeforePrefix(pages, i, m - 1);
      PagesBeforeStep(pages, m - 1);
    }
  }

  /** The page-by-page reading of `Listed`: a final response gives its own payments (or
      nothing, when it raised), and a response with a cursor puts its payments in front
      of what the remaining calls collect. */
  lemma ListedUnfold(pages: seq<PageResult>)
    requires Terminates(pages)
    ensures EndsPaging(pages[0]) ==>
      Listed(pages) == (if pages[0].PageRaised? then None else Some(PaymentsOf(pages[0])))
    ensures !EndsPaging(pages[0]) ==> Terminates(pages[1..])
    ensures !EndsPaging(pages[0]) ==>
      Listed(pages) == (match Listed(pages[1..])
        case None => None
        case Some(rest) => Some(pages[0].payments + rest))
  {
    var n := StopIndex(pages);
    if EndsPaging(pages[0]) {
      assert n == 0;
      PagesBeforeStep(pages, 0);
      assert PagesBefore(pages, 0) == [];
      assert PagesBefore(pages, n + 1) == PaymentsOf(pages[0]);
    } else {
      PagesBeforeShift(pages, n);
      assert pages[1..][n - 1] == pages[n];
    }
  }

  /** A failure envelope at the last call keeps every payment received before it. */
  lemma FailureKeepsEarlierPages(pages: seq<PageResult>)
    requires Terminates(pages) && pages[StopIndex(pages)].PageFailed?
    ensures Listed(pages) == Some(PagesBefore(pages, StopIndex(pages)))
  {
    var n := StopIndex(pages);
    PagesBeforeStep(pages, n);
    assert PaymentsOf(pages[n]) == [];
    assert PagesBefore(pages, n) + [] == PagesBefore(pages, n);
  }

  /** The number of payments each successful response carried, added up. */
  function PaymentCount(pages: seq<PageResult>, n: nat): nat
    requires n <= |pages|
  {
    if n == 0 then 0 else PaymentCount(pages, n - 1) + |PaymentsOf(pages[n - 1])|
  }

  lemma {:induction false} PaymentCountLength(pages: seq<PageResult>, n: nat)
    requires n <= |pages|
    ensures PaymentCount(pages, n) == |PagesBefore(pages, n)|
  {
    if n > 0 {
      PaymentCountLength(pages, n - 1);
      PagesBeforeStep(pages, n - 1);
    }
  }

  /** The page size every call asks for. */
  const PageLimit: nat := 200

  /** The arguments of one "list payments" call. */
  datatype Request = Request(beginTime: string, endTime: string, locationId: string, cursor: Option<string>, limit: nat)

  /** The calls a paginator makes: the first without a cursor, every later one with the
      (non-empty) cursor of the response before it, all with the same window, location
      and page size, and none after the response that ends the paging. */
  function Calls(beginTime: string, endTime: string, locationId: string, pages: seq<PageResult>): (r: seq<Request>)
    requires Terminates(pages)
    ensures |r| == StopIndex(pages) + 1
    ensures r[0].cursor == None
    ensures forall i :: 0 < i < |r| ==> Truthy(r[i].cursor) && r[i].cursor == pages[i - 1].cursor
    ensures forall i :: 0 <= i < |r| ==>
      r[i].beginTime == beginTime && r[i].endTime == endTime && r[i].locationId == locationId && r[i].limit == PageLimit
  {
    var n := StopIndex(pages);
    seq(n + 1, i requires 0 <= i <= n =>
      Request(beginTime, endTime, locationId, if i == 0 then None else pages[i - 1].cursor, PageLimit))
  }

  /** A payment's `created_at` converted to Asia/Taipei: the `%Y-%m-%d` date, the
      `%H:%M:%S` time, the hour and the instant in epoch seconds. The ISO parser and the
      time-zone conversion are parameters of the model (`ParseTime` below). */
  datatype LocalTime = LocalTime(date: string, time: string, hour: nat, epoch: int)

  /** `datetime.fromisoformat(s.replace('Z', '+00:00')).astimezone(tz)`; None when it raises. */
  type ParseTime = string -> Option<LocalTime>
}
