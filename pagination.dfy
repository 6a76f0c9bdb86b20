/**
 * The admin list pager: which page the query string selects, how many
 * pages there are, which buttons are enabled and where they lead.
 */
module Pagination {
  import opened Wrappers
  import opened Web
  import opened JsNumber

  /** `Number(searchParams.get(paramName)) || 1`: an absent, zero or
      non-numeric parameter selects page 1, any other number is taken as is. */
  function CurrentPage(params: Entries, paramName: string): (r: int)
    ensures r != 0
    ensures Lookup(params, paramName).None? ==> r == 1
    ensures ToNumber(Lookup(params, paramName)) == Int(r)
         || (r == 1 && ToNumber(Lookup(params, paramName)) in {NaN, Int(0)})
  {
    match ToNumber(Lookup(params, paramName))
    case NaN => 1
    case Int(v) => if v == 0 then 1 else v
  }

  /** `Math.ceil(totalCount / pageSize)`: the fewest pages of `pageSize`
      rows that hold `totalCount` rows. */
  function TotalPages(totalCount: nat, pageSize: nat): (r: nat)
    requires pageSize > 0
    ensures totalCount <= r * pageSize
    ensures r == 0 || (r - 1) * pageSize < totalCount
  {
    var q := (totalCount + pageSize - 1) / pageSize;
    var m := (totalCount + pageSize - 1) % pageSize;
    assert q * pageSize + m == totalCount + pageSize - 1;
    assert (q - 1) * pageSize == q * pageSize - pageSize;
    q
  }

  /** More than one page exactly when the rows do not fit on one page. */
  lemma SeveralPages(totalCount: nat, pageSize: nat)
    requires pageSize > 0
    ensures TotalPages(totalCount, pageSize) <= 1 <==> totalCount <= pageSize
  {
    var total := TotalPages(totalCount, pageSize);
    if total <= 1 {
      assert total * pageSize <= pageSize;
    } else {
      assert (total - 1) * pageSize >= pageSize;
    }
  }

  /** `handlePageChange(newPage)`: the query string the router is sent to. */
  function PageChange(params: Entries, paramName: string, newPage: int): (r: Entries)
    ensures newPage != 0 ==> CurrentPage(r, paramName) == newPage
    ensures forall key :: key != paramName ==> Lookup(r, key) == Lookup(params, key)
    ensures Without(r, paramName) == Without(params, paramName)
  {
    var r := SetParam(params, paramName, IntToString(newPage));
    SetParamSpec(params, paramName, IntToString(newPage));
    IntToStringRoundTrip(newPage);
    r
  }

  /** What the pager shows when it shows anything. */
  datatype Pager = Pager(current: int, total: nat, prevDisabled: bool, nextDisabled: bool,
                         prevTarget: Entries, nextTarget: Entries)

  /** The pager for page `current` of `total`: Previous is disabled from
      page 1 down and leads one page back, Next is disabled from the last
      page up and leads one page on. */
  function Buttons(params: Entries, paramName: string, current: int, total: nat): (p: Pager)
    ensures p.current == current && p.total == total
    ensures (p.prevDisabled <==> current <= 1) && (p.nextDisabled <==> current >= total)
    ensures p.prevTarget == PageChange(params, paramName, current - 1)
    ensures p.nextTarget == PageChange(params, paramName, current + 1)
  {
    Pager(current, total, current <= 1, current >= total,
          PageChange(params, paramName, current - 1), PageChange(params, paramName, current + 1))
  }

  /** `PaginationControl`: nothing while every row fits on one page;
      otherwise the current page of the query string, the page count, and
      the two buttons, each disabled at its end of the range and leading
      to the page before or after the current one. */
  function Render(params: Entries, paramName: string, totalCount: nat, pageSize: nat): (r: Option<Pager>)
    requires pageSize > 0
    ensures r.None? <==> totalCount <= pageSize
    ensures r.Some? ==>
      r.value.current == CurrentPage(params, paramName) && r.value.total == TotalPages(totalCount, pageSize)
      && r.value.total >= 2
    ensures r.Some? ==>
      (r.value.prevDisabled <==> r.value.current <= 1) && (r.value.nextDisabled <==> r.value.current >= r.value.total)
    ensures r.Some? ==> r.value.prevTarget == PageChange(params, paramName, CurrentPage(params, paramName) - 1)
    ensures r.Some? ==> r.value.nextTarget == PageChange(params, paramName, CurrentPage(params, paramName) + 1)
  {
    var current := CurrentPage(params, paramName);
    var total := TotalPages(totalCount, pageSize);
    SeveralPages(totalCount, pageSize);
    if total <= 1 then None
    else
      Some(Buttons(params, paramName, current, total))
  }

  /** From a page in range, an enabled button leads to the neighbouring
      page, which is again in range. */
  lemma EnabledButtonStaysInRange(params: Entries, paramName: string, totalCount: nat, pageSize: nat)
    requires pageSize > 0
    requires Render(params, paramName, totalCount, pageSize).Some?
    ensures var p := Render(params, paramName, totalCount, pageSize).value;
            1 <= p.current <= p.total ==>
              (!p.prevDisabled ==>
                 CurrentPage(p.prevTarget, paramName) == p.current - 1 && 1 <= p.current - 1 <= p.total)
              && (!p.nextDisabled ==>
                 CurrentPage(p.nextTarget, paramName) == p.current + 1 && 1 <= p.current + 1 <= p.total)
  {
  }
}
