/**
 * The record requests the widget sends, and the date-window filter of the
 * donut's request. Dates arrive already formatted as `YYYY-MM-DD`: `from` is
 * one month or `n` days before today, `to` is today.
 */
module DateQuery {
  import opened Wrappers

  /** The secondary app the donut reads, and the page-size ceiling of every request. */
  const SECONDARY_APP := 147
  const PAGE_SIZE := 500
  /** The date-time field the window filters on. */
  const START_FIELD := "実行開始"
  const MONTH_SELECTOR := "1month"

  /** The `daysAgo` argument: a string or a number. */
  datatype Selector = Text(text: string) | Number(days: int)

  /** The request parameters `{app, size, query?, fields?}`. */
  datatype Request = Request(app: nat, size: nat, query: Option<string>, fields: Option<seq<string>>)

  function LowerBound(from: string): string {
    START_FIELD + " >= \"" + from + "\""
  }

  function UpperBound(to: string): string {
    START_FIELD + " <= \"" + to + "\""
  }

  predicate IsWindowed(sel: Selector) {
    sel == Text(MONTH_SELECTOR) || (sel.Number? && sel.days > 0)
  }

  /** The filter string built for a selector ("" when the selector asks for no window). */
  function DateFilter(sel: Selector, from: string, to: string): string {
    if sel == Text(MONTH_SELECTOR) then LowerBound(from) + " and " + UpperBound(to)
    else if sel.Number? && sel.days > 0 then LowerBound(from)
    else ""
  }

  /** The donut's request: `query` is attached only when the filter is non-empty. */
  function DonutRequest(sel: Selector, from: string, to: string): Request {
    var query := DateFilter(sel, from, to);
    Request(SECONDARY_APP, PAGE_SIZE, if query != "" then Some(query) else None, None)
  }

  /** The status-count request of the current app: the status field only. */
  function StatusRequest(appId: nat): Request {
    Request(appId, PAGE_SIZE, None, Some(["ステータス"]))
  }

  /** The bar chart's request of the current app: every field, no filter. */
  function EffortRequest(appId: nat): Request {
    Request(appId, PAGE_SIZE, None, None)
  }

  /**
   * The three branches of the window: the month selector bounds both ends,
   * a positive day count bounds only the start, anything else sends no query.
   */
  lemma DonutRequestBranches(sel: Selector, from: string, to: string)
    ensures var r := DonutRequest(sel, from, to);
      r.app == SECONDARY_APP && r.size == PAGE_SIZE && r.fields.None? &&
      (r.query.Some? <==> IsWindowed(sel)) &&
      (sel == Text(MONTH_SELECTOR) ==> r.query == Some(LowerBound(from) + " and " + UpperBound(to))) &&
      (sel.Number? && sel.days > 0 ==> r.query == Some(LowerBound(from))) &&
      (sel.Text? && sel.text != MONTH_SELECTOR ==> r.query.None?) &&
      (sel.Number? && sel.days <= 0 ==> r.query.None?)
  {
    assert LowerBound(from) != "";
  }

  /**
   * Within a window the lower bound comes first, and the dates stand between
   * the quotes where the filter's reader finds them.
   */
  lemma FilterDates(sel: Selector, from: string, to: string)
    requires IsWindowed(sel)
    ensures var q := DateFilter(sel, from, to);
      var k := |START_FIELD + " >= \""|;
      |q| >= k + |from| + 1 && q[k..k + |from|] == from && q[k + |from|] == '"'
    ensures sel == Text(MONTH_SELECTOR) ==>
      var q := DateFilter(sel, from, to);
      |q| >= |to| + 1 && q[|q| - |to| - 1..|q| - 1] == to && q[|q| - 1] == '"'
  {
    var k := |START_FIELD + " >= \""|;
    var lower := LowerBound(from);
    assert lower[k..k + |from|] == from;
    if sel == Text(MONTH_SELECTOR) {
      var q := DateFilter(sel, from, to);
      assert q == lower + (" and " + UpperBound(to));
      assert q[k..k + |from|] == lower[k..k + |from|];
    }
  }

  /** The date buttons and the initial load. */
  const BUTTON_SELECTORS := [Number(1), Number(7), Text(MONTH_SELECTOR)]

  /** Every selector the page can send is windowed: the unfiltered branch is never taken from the page. */
  lemma ButtonsAreWindowed()
    ensures forall i :: 0 <= i < |BUTTON_SELECTORS| ==> IsWindowed(BUTTON_SELECTORS[i])
  {
  }

  /**
   * Every request stays within one page of 500 records; the two requests of
   * the current app carry no filter, and the status request asks for the
   * status field alone.
   */
  lemma RequestsCapped(sel: Selector, from: string, to: string, appId: nat)
    ensures DonutRequest(sel, from, to).size == StatusRequest(appId).size == EffortRequest(appId).size == 500
    ensures StatusRequest(appId).app == EffortRequest(appId).app == appId
    ensures StatusRequest(appId).query.None? && EffortRequest(appId).query.None?
    ensures StatusRequest(appId).fields == Some(["ステータス"]) && EffortRequest(appId).fields.None?
  {
  }
}
