/** The fetch loop the two weekly report scripts share: page through "list payments"
    for the last seven days and, payment by payment as each page arrives, expand the
    payment into report rows. The two scripts differ only in the rows one payment
    gives, which is the parameter `lines` here (None when building them raises). Any
    exception ends the whole fetch with no data. */
module WeeklyFetch {
  import opened Wrappers
  import opened Square

  /** The rows of every payment in order, or None as soon as one payment's expansion
      raises. */
  function ExpandAll<R>(ps: seq<Payment>, lines: Payment -> Option<seq<R>>): (r: Option<seq<R>>)
    ensures r.None? <==> exists i :: 0 <= i < |ps| && lines(ps[i]).None?
  {
    if ps == [] then Some([])
    else
      var init := ps[..|ps| - 1];
      assert forall i :: 0 <= i < |init| ==> init[i] == ps[i];
      match (ExpandAll(init, lines), lines(ps[|ps| - 1]))
      case (Some(a), Some(b)) => Some(a + b)
      case _ => None
  }

  lemma ExpandAllStep<R>(ps: seq<Payment>, p: Payment, lines: Payment -> Option<seq<R>>)
    ensures ExpandAll(ps + [p], lines) == match (ExpandAll(ps, lines), lines(p))
      case (Some(a), Some(b)) => Some(a + b)
      case _ => None
  {
    assert (ps + [p])[..|ps|] == ps;
  }

  /** Once an expansion has raised, no later payment brings the data back. */
  lemma ExpandAllNonePrefix<R>(a: seq<Payment>, b: seq<Payment>, lines: Payment -> Option<seq<R>>)
    requires a <= b && ExpandAll(a, lines).None?
    ensures ExpandAll(b, lines).None?
  {
    var i :| 0 <= i < |a| && lines(a[i]).None?;
    assert b[i] == a[i];
  }

  /** What the fetch returns: every listed payment's rows, in order; None when the last
      "list payments" call raised or a payment's expansion raised. */
  function Fetched<R>(pages: seq<PageResult>, lines: Payment -> Option<seq<R>>): Option<seq<R>>
    requires Terminates(pages)
  {
    match Listed(pages)
    case None => None
    case Some(ps) => ExpandAll(ps, lines)
  }

  /** The loop over one page's payments: the rows so far, extended by each payment's rows;
      None as soon as one expansion raises. */
  method ExpandPage<R>(rows: seq<R>, ghost before: seq<Payment>, payments: seq<Payment>, lines: Payment -> Option<seq<R>>)
    returns (extended: Option<seq<R>>)
    requires ExpandAll(before, lines) == Some(rows)
    ensures extended == ExpandAll(before + payments, lines)
  {
    var out := rows;
    var j := 0;
    assert before + payments[..0] == before;
    while j < |payments|
      invariant 0 <= j <= |payments|
      invariant ExpandAll(before + payments[..j], lines) == Some(out)
    {
      var more := lines(payments[j]);
      ExpandAllStep(before + payments[..j], payments[j], lines);
      assert before + payments[..j + 1] == (before + payments[..j]) + [payments[j]];
      if more.None? {
        ExpandAllNonePrefix(before + payments[..j + 1], before + payments, lines);
        return None;
      }
      out := out + more.value;
      j := j + 1;
    }
    assert payments[..|payments|] == payments;
    return Some(out);
  }

  /** The loop stops at the response that ends paging; what it has listed by then is
      what the paginator lists. */
  lemma StopsAt(pages: seq<PageResult>, i: nat)
    requires Terminates(pages) && i <= StopIndex(pages) && EndsPaging(pages[i])
    ensures i == StopIndex(pages)
    ensures Listed(pages) == if pages[i].PageRaised? then None else Some(PagesBefore(pages, i + 1))
  {
  }

  /** `get_sales_data`'s loop for its one location: call "list payments" with no cursor and
      then with each response's cursor; expand each payment of a successful response before
      the next call; stop at a failure envelope or a missing cursor. `totalPayments` counts
      the payments of the successful responses. */
  method FetchSales<R>(beginTime: string, endTime: string, locationId: string,
                       pages: seq<PageResult>, lines: Payment -> Option<seq<R>>)
    returns (data: Option<seq<R>>, totalPayments: nat, calls: seq<Request>)
    requires Terminates(pages)
    ensures data == Fetched(pages, lines)
    ensures data.Some? ==> totalPayments == |Listed(pages).value|
    ensures data.Some? ==> calls == Calls(beginTime, endTime, locationId, pages)
  {
    ghost var n := StopIndex(pages);
    ghost var all := Calls(beginTime, endTime, locationId, pages);
    var rows: seq<R> := [];
    totalPayments := 0;
    calls := [];
    var cursor: Option<string> := None;
    var i := 0;
    while true
      invariant 0 <= i <= n
      invariant ExpandAll(PagesBefore(pages, i), lines) == Some(rows)
      invariant totalPayments == |PagesBefore(pages, i)|
      invariant calls == all[..i]
      invariant cursor == (if i == 0 then None else pages[i - 1].cursor)
      decreases n - i
    {
      var result := pages[i];
      calls := calls + [Request(beginTime, endTime, locationId, cursor, PageLimit)];
      assert calls == all[..i + 1];
      PagesBeforeStep(pages, i);
      if EndsPaging(result) {
        StopsAt(pages, i);
        assert all[..i + 1] == all;
      }
      if result.PageRaised? {
        return None, totalPayments, calls;
      }
      if result.PageFailed? {
        assert PagesBefore(pages, i + 1) == PagesBefore(pages, i);
        return Some(rows), totalPayments, calls;
      }
      var payments := result.payments;
      totalPayments := totalPayments + |payments|;
      var extended := ExpandPage(rows, PagesBefore(pages, i), payments, lines);
      if extended.None? {
        PagesBeforePrefix(pages, i + 1, n + 1);
        ExpandAllNonePrefix(PagesBefore(pages, i + 1), PagesBefore(pages, n + 1), lines);
        return None, totalPayments, calls;
      }
      rows := extended.value;
      cursor := result.cursor;
      if !Truthy(cursor) {
        return Some(rows), totalPayments, calls;
      }
      i := i + 1;
    }
  }
}
