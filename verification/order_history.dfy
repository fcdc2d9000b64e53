/**
 The order-history screen of `OrderHistoryController`: the list of stored
 orders, the rows the table shows, the picked date and the total-sales
 label; filtering by calendar date, clearing the filter, the total of the
 shown rows, and the guard and reload around deleting an order.
 */
module OrderHistory {
  import opened Wrappers
  import opened Text
  import opened Numerals
  import opened Calendar

  /** One stored order as the history lists it: its id, its timestamp and
      its total. */
  datatype OrderRow = OrderRow(orderId: int, timestamp: DateTime, total: real)

  /** The error alerts of the screen. */
  datatype Alert = NoDateSelected | NoOrderSelected | LoadFailed | DeleteFailed

  function Message(a: Alert): string {
    match a
    case NoDateSelected => "Please select a date"
    case NoOrderSelected => "Please select an order to delete"
    case LoadFailed => "Failed to load order history: "
    case DeleteFailed => "Failed to delete order: "
  }

  /**
   The screen's state: every stored order, the rows the table shows, the
   date in the picker, and the amount on the total-sales label (`None`
   until a total has been shown).
   */
  datatype History = History(allOrders: seq<OrderRow>, visible: seq<OrderRow>, picked: Option<Date>, totalSales: Option<int>)

  /** Whether a row was placed on day `d`. */
  predicate OnDay(r: OrderRow, d: Date) {
    ToLocalDate(r.timestamp) == d
  }

  /** The rows placed on day `d`, in their original order. */
  function FilterByDate(rows: seq<OrderRow>, d: Date): seq<OrderRow> {
    if |rows| == 0 then []
    else (if OnDay(rows[0], d) then [rows[0]] else []) + FilterByDate(rows[1..], d)
  }

  /** The rows placed on any other day: the complement of the filter. */
  function FilterOutDate(rows: seq<OrderRow>, d: Date): seq<OrderRow> {
    if |rows| == 0 then []
    else (if OnDay(rows[0], d) then [] else [rows[0]]) + FilterOutDate(rows[1..], d)
  }

  /** `a` can be obtained from `b` by deleting elements. */
  predicate SubsequenceOf(a: seq<OrderRow>, b: seq<OrderRow>)
    decreases |b|
  {
    if |a| == 0 then true
    else if |b| == 0 then false
    else if a[0] == b[0] then SubsequenceOf(a[1..], b[1..])
    else SubsequenceOf(a, b[1..])
  }

  /** The filter keeps exactly the rows of that day: each kept row is of
      that day, each row of that day is kept as often as it occurs, and the
      kept rows are in their original order. */
  lemma FilterByDateSpec(rows: seq<OrderRow>, d: Date)
    ensures forall i :: 0 <= i < |FilterByDate(rows, d)| ==> OnDay(FilterByDate(rows, d)[i], d)
    ensures forall r :: OnDay(r, d) ==> multiset(FilterByDate(rows, d))[r] == multiset(rows)[r]
    ensures forall r :: !OnDay(r, d) ==> multiset(FilterByDate(rows, d))[r] == 0
    ensures SubsequenceOf(FilterByDate(rows, d), rows)
  {
    FilterOnlyDay(rows, d);
    forall r ensures multiset(FilterByDate(rows, d))[r] == if OnDay(r, d) then multiset(rows)[r] else 0 {
      FilterCounts(rows, d, r);
    }
    FilterSubsequence(rows, d);
  }

  lemma {:induction false} FilterOnlyDay(rows: seq<OrderRow>, d: Date)
    ensures forall i :: 0 <= i < |FilterByDate(rows, d)| ==> OnDay(FilterByDate(rows, d)[i], d)
    decreases |rows|
  {
    if |rows| > 0 {
      var head := if OnDay(rows[0], d) then [rows[0]] else [];
      var rest := FilterByDate(rows[1..], d);
      FilterOnlyDay(rows[1..], d);
      assert FilterByDate(rows, d) == head + rest;
      forall i | 0 <= i < |head + rest| ensures OnDay((head + rest)[i], d) {
        if i >= |head| {
          assert (head + rest)[i] == rest[i - |head|];
        }
      }
    }
  }

  lemma {:induction false} FilterCounts(rows: seq<OrderRow>, d: Date, r: OrderRow)
    ensures multiset(FilterByDate(rows, d))[r] == if OnDay(r, d) then multiset(rows)[r] else 0
    decreases |rows|
  {
    if |rows| > 0 {
      var head := if OnDay(rows[0], d) then [rows[0]] else [];
      FilterCounts(rows[1..], d, r);
      assert FilterByDate(rows, d) == head + FilterByDate(rows[1..], d);
      assert rows == [rows[0]] + rows[1..];
    }
  }

  lemma {:induction false} FilterSubsequence(rows: seq<OrderRow>, d: Date)
    ensures SubsequenceOf(FilterByDate(rows, d), rows)
    decreases |rows|
  {
    if |rows| > 0 {
      var rest := FilterByDate(rows[1..], d);
      FilterSubsequence(rows[1..], d);
      if OnDay(rows[0], d) {
        assert FilterByDate(rows, d) == [rows[0]] + rest;
        assert ([rows[0]] + rest)[1..] == rest;
      } else {
        assert FilterByDate(rows, d) == [] + rest == rest;
        SubsequenceSkip(rest, rows);
      }
    }
  }

  /** A subsequence of the tail is a subsequence of the whole. */
  lemma {:induction false} SubsequenceSkip(a: seq<OrderRow>, b: seq<OrderRow>)
    requires |b| > 0 && SubsequenceOf(a, b[1..])
    ensures SubsequenceOf(a, b)
    decreases |b|, |a|
  {
    if |a| > 0 && a[0] == b[0] {
      SubsequenceDrop(a, b[1..]);
    }
  }

  /** Dropping the first element keeps a subsequence. */
  lemma {:induction false} SubsequenceDrop(a: seq<OrderRow>, b: seq<OrderRow>)
    requires |a| > 0 && SubsequenceOf(a, b)
    ensures SubsequenceOf(a[1..], b)
    decreases |b|, |a|
  {
    if a[0] == b[0] {
      if |a| > 1 {
        SubsequenceDrop(a[1..], b[1..]);
      }
      SubsequenceSkip(a[1..], b);
    } else {
      SubsequenceDrop(a, b[1..]);
      SubsequenceSkip(a[1..], b);
    }
  }

  /** Filtering the filtered rows again changes nothing. */
  lemma {:induction false} FilterIdempotent(rows: seq<OrderRow>, d: Date)
    ensures FilterByDate(FilterByDate(rows, d), d) == FilterByDate(rows, d)
    decreases |rows|
  {
    if |rows| > 0 {
      var head := if OnDay(rows[0], d) then [rows[0]] else [];
      var rest := FilterByDate(rows[1..], d);
      FilterIdempotent(rows[1..], d);
      FilterAppend(head, rest, d);
      if OnDay(rows[0], d) {
        assert FilterByDate(head, d) == head by {
          assert head[1..] == [];
        }
      }
    }
  }

  lemma {:induction false} FilterAppend(a: seq<OrderRow>, b: seq<OrderRow>, d: Date)
    ensures FilterByDate(a + b, d) == FilterByDate(a, d) + FilterByDate(b, d)
    ensures FilterOutDate(a + b, d) == FilterOutDate(a, d) + FilterOutDate(b, d)
    decreases |a|
  {
    if |a| == 0 {
      assert a + b == b;
    } else {
      assert (a + b)[1..] == a[1..] + b;
      FilterAppend(a[1..], b, d);
    }
  }

  /** The sum of the totals of `rows`. */
  function SumTotals(rows: seq<OrderRow>): real {
    if |rows| == 0 then 0.0 else rows[0].total + SumTotals(rows[1..])
  }

  lemma {:induction false} SumTotalsAppend(a: seq<OrderRow>, b: seq<OrderRow>)
    ensures SumTotals(a + b) == SumTotals(a) + SumTotals(b)
    decreases |a|
  {
    if |a| == 0 {
      assert a + b == b;
    } else {
      assert (a + b)[1..] == a[1..] + b;
      SumTotalsAppend(a[1..], b);
    }
  }

  /** The sales of a day and of all other days add up to all sales. */
  lemma {:induction false} SalesPartition(rows: seq<OrderRow>, d: Date)
    ensures SumTotals(FilterByDate(rows, d)) + SumTotals(FilterOutDate(rows, d)) == SumTotals(rows)
    decreases |rows|
  {
    if |rows| > 0 {
      SalesPartition(rows[1..], d);
      var r := rows[0];
      if OnDay(r, d) {
        SumTotalsAppend([r], FilterByDate(rows[1..], d));
        assert FilterOutDate(rows, d) == FilterOutDate(rows[1..], d);
      } else {
        SumTotalsAppend([r], FilterOutDate(rows[1..], d));
        assert FilterByDate(rows, d) == FilterByDate(rows[1..], d);
      }
    }
  }

  /** The amount the total-sales label shows for `rows`: the sum,
      truncated. */
  function TotalSales(rows: seq<OrderRow>): int {
    JavaLong(SumTotals(rows))
  }

  /** `handleShowTotal()` as the source runs it: a running sum over the
      shown rows, truncated at the end. */
  method ShowTotal(rows: seq<OrderRow>) returns (sales: int)
    ensures sales == TotalSales(rows)
    ensures |rows| == 0 ==> sales == 0
  {
    var total := 0.0;
    var i := 0;
    while i < |rows|
      invariant 0 <= i <= |rows|
      invariant total == SumTotals(rows[..i])
    {
      SumTotalsAppend(rows[..i], [rows[i]]);
      assert rows[..i + 1] == rows[..i] + [rows[i]];
      total := total + rows[i].total;
      i := i + 1;
    }
    assert rows[..i] == rows;
    sales := JavaLong(total);
  }

  /** The label text: "Total Sales: Rp " and the amount with grouping. */
  function TotalLabel(sales: int): string {
    "Total Sales: Rp " + GroupedInt(sales)
  }

  /** The label's amount reads back as the sales figure. */
  lemma TotalLabelReadsBack(sales: int)
    ensures |TotalLabel(sales)| >= 16 && TotalLabel(sales)[..16] == "Total Sales: Rp "
    ensures ParseDecimal(StripCommas(TotalLabel(sales)[16..])) == Some(sales as real)
  {
    assert TotalLabel(sales)[16..] == GroupedInt(sales);
    ParseDecimalOfGrouped(sales);
  }

  /** The result of a handler: the next state and the alert raised. */
  datatype Step = Step(next: History, alert: Option<Alert>)

  /** `loadOrderHistory()` with what the store returned (`None` for a
      failure): the table then shows every order; on failure only the
      alert is raised. */
  function LoadOrderHistory(h: History, fetched: Option<seq<OrderRow>>): (s: Step)
    ensures fetched.None? ==> s == Step(h, Some(LoadFailed))
    ensures fetched.Some? ==>
      && s.alert.None?
      && s.next.allOrders == s.next.visible == fetched.value
      && s.next.picked == h.picked && s.next.totalSales == h.totalSales
  {
    match fetched
    case None => Step(h, Some(LoadFailed))
    case Some(rows) => Step(h.(allOrders := rows, visible := rows), None)
  }

  /** `initialize()`: an empty screen, then a load. */
  function Initialize(fetched: Option<seq<OrderRow>>): Step {
    LoadOrderHistory(History([], [], None, None), fetched)
  }

  /** `handleFilterByDate()`: without a date, an alert and no change;
      otherwise the table shows that day's orders and the label their
      total. */
  function HandleFilterByDate(h: History): (s: Step)
    ensures h.picked.None? ==> s == Step(h, Some(NoDateSelected))
    ensures h.picked.Some? ==>
      && s.alert.None?
      && s.next.allOrders == h.allOrders && s.next.picked == h.picked
      && (forall i :: 0 <= i < |s.next.visible| ==> OnDay(s.next.visible[i], h.picked.value))
      && SubsequenceOf(s.next.visible, h.allOrders)
      && (forall r :: OnDay(r, h.picked.value) ==> multiset(s.next.visible)[r] == multiset(h.allOrders)[r])
      && s.next.totalSales == Some(TotalSales(s.next.visible))
  {
    match h.picked
    case None => Step(h, Some(NoDateSelected))
    case Some(d) =>
      FilterByDateSpec(h.allOrders, d);
      var rows := FilterByDate(h.allOrders, d);
      Step(h.(visible := rows, totalSales := Some(TotalSales(rows))), None)
  }

  /** `handleClearFilter()`: the picker is emptied, the table shows every
      order again and the label their total. */
  function HandleClearFilter(h: History): (h': History)
    ensures h'.allOrders == h.allOrders
    ensures h'.visible == h.allOrders && h'.picked.None?
    ensures h'.totalSales == Some(TotalSales(h.allOrders))
  {
    h.(visible := h.allOrders, picked := None, totalSales := Some(TotalSales(h.allOrders)))
  }

  /** How the delete confirmation ended: cancelled, failed in the store, or
      done, with what the reload then fetched. */
  datatype DeleteOutcome = Cancelled | StoreFailed | Deleted(reloaded: Option<seq<OrderRow>>)

  /** `handleDeleteOrder()`: without a selection, an alert and nothing else;
      otherwise the id of the selected order is the one asked to be
      deleted, and on success the list is reloaded. Only a selected row's
      id is ever asked to be deleted, and the stored orders change only
      after a confirmed delete. */
  function HandleDeleteOrder(h: History, selected: Option<OrderRow>, outcome: DeleteOutcome): (r: (Step, Option<int>))
    ensures r.1.Some? ==> selected.Some? && r.1.value == selected.value.orderId
    ensures r.1.Some? <==> selected.Some? && !outcome.Cancelled?
    ensures r.0.next != h ==> selected.Some? && outcome.Deleted? && outcome.reloaded.Some?
    ensures r.0.alert.None? <==> selected.Some? && (outcome.Cancelled? || (outcome.Deleted? && outcome.reloaded.Some?))
  {
    match selected
    case None => (Step(h, Some(NoOrderSelected)), None)
    case Some(row) =>
      match outcome
      case Cancelled => (Step(h, None), None)
      case StoreFailed => (Step(h, Some(DeleteFailed)), Some(row.orderId))
      case Deleted(reloaded) => (LoadOrderHistory(h, reloaded), Some(row.orderId))
  }

  /** The label agrees with the rows shown. */
  ghost predicate LabelMatches(h: History) {
    h.totalSales.Some? ==> h.totalSales.value == TotalSales(h.visible)
  }

  /** Filtering and clearing both leave the label agreeing with the rows
      shown, from any state; both only show stored orders. */
  lemma FilterAndClearRefreshLabel(h: History)
    ensures LabelMatches(HandleFilterByDate(h).next) || HandleFilterByDate(h).next == h
    ensures LabelMatches(HandleClearFilter(h))
    ensures forall r :: r in HandleFilterByDate(h).next.visible ==> r in h.allOrders || HandleFilterByDate(h).next == h
  {
    if h.picked.Some? {
      var v := HandleFilterByDate(h).next.visible;
      forall r | r in v ensures r in h.allOrders {
        assert multiset(v)[r] > 0;
      }
    }
  }

  /** Clearing undoes any filter: the result does not depend on the date
      picked or on which rows were shown. */
  lemma ClearForgetsFilter(h: History)
    requires h.picked.Some?
    ensures HandleClearFilter(HandleFilterByDate(h).next) == HandleClearFilter(h)
  {
  }

  /** Filtering twice by the same date gives what filtering once gave. */
  lemma FilterTwice(h: History)
    requires h.picked.Some?
    ensures HandleFilterByDate(HandleFilterByDate(h).next).next.visible == HandleFilterByDate(h).next.visible
    ensures HandleFilterByDate(HandleFilterByDate(h).next).next.allOrders == h.allOrders
  {
    FilterIdempotent(h.allOrders, h.picked.value);
  }

  /** With a day picked, the day's total and the total of the remaining
      days add up to the total over all orders, up to truncation. */
  lemma DayTotalsAddUp(h: History)
    requires h.picked.Some?
    ensures SumTotals(HandleFilterByDate(h).next.visible) + SumTotals(FilterOutDate(h.allOrders, h.picked.value))
            == SumTotals(HandleClearFilter(h).visible)
  {
    SalesPartition(h.allOrders, h.picked.value);
  }

  /** A successful delete shows the reloaded list in full even when a
      filter was active, keeps the picked date, and leaves the label as it
      was, so the label and the shown rows can then disagree. */
  lemma DeleteReloadsUnfiltered(h: History, row: OrderRow, rows: seq<OrderRow>)
    ensures var (s, id) := HandleDeleteOrder(h, Some(row), Deleted(Some(rows)));
      && id == Some(row.orderId)
      && s.next.visible == rows && s.next.picked == h.picked && s.next.totalSales == h.totalSales
  {
  }

  /** A delete that is cancelled, or that the store refuses, leaves the
      screen as it was; only the refusal raises an alert, and only a
      confirmed delete names an order. */
  lemma DeleteKeepsScreenUnlessDone(h: History, row: OrderRow, outcome: DeleteOutcome)
    requires !outcome.Deleted?
    ensures HandleDeleteOrder(h, Some(row), outcome).0.next == h
    ensures HandleDeleteOrder(h, Some(row), outcome).0.alert.Some? <==> outcome == StoreFailed
    ensures HandleDeleteOrder(h, Some(row), outcome).1.Some? <==> outcome == StoreFailed
  {
  }

  /** Without a selection, deleting asks for nothing and changes nothing. */
  lemma DeleteNeedsSelection(h: History, outcome: DeleteOutcome)
    ensures HandleDeleteOrder(h, None, outcome).0.next == h
    ensures HandleDeleteOrder(h, None, outcome).1.None?
    ensures HandleDeleteOrder(h, None, outcome).0.alert == Some(NoOrderSelected)
  {
  }
}
