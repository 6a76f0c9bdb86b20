/**
 * The sort selector of the admin lists: the `sort` query parameter,
 * read with a default and written with `URLSearchParams.set`.
 */
module SortControl {
  import opened Wrappers
  import opened Web
  import Pagination

  const SortParam := "sort"
  const DefaultSort := "desc"

  /** The choices the selector offers, as (value, label). */
  const Options: seq<(string, string)> := [("desc", "Latest"), ("asc", "Oldest")]

  /** `searchParams.get("sort") || "desc"`: the parameter's value when it
      is present and non-empty, whatever it is, and `"desc"` otherwise. */
  function CurrentSort(params: Entries): (r: string)
    ensures r != ""
    ensures Lookup(params, SortParam).Some? && Lookup(params, SortParam).value != "" ==>
      r == Lookup(params, SortParam).value
    ensures Lookup(params, SortParam).None? || Lookup(params, SortParam).value == "" ==>
      r == DefaultSort
  {
    match Lookup(params, SortParam)
    case Some(v) => if v == "" then DefaultSort else v
    case None => DefaultSort
  }

  /** `handleSort(value)`: the query string the router is sent to; it
      selects `value` and carries every other parameter over. */
  function HandleSort(params: Entries, value: string): (r: Entries)
    ensures value != "" ==> CurrentSort(r) == value
    ensures value == "" ==> CurrentSort(r) == DefaultSort
    ensures forall key :: key != SortParam ==> Lookup(r, key) == Lookup(params, key)
    ensures Without(r, SortParam) == Without(params, SortParam)
  {
    SetParamSpec(params, SortParam, value);
    SetParam(params, SortParam, value)
  }

  /** Each offered choice, once chosen, is the one shown as current. */
  lemma OfferedChoicesAreShown(params: Entries, i: nat)
    requires i < |Options|
    ensures CurrentSort(HandleSort(params, Options[i].0)) == Options[i].0
  {
  }

  /** Changing the sort leaves the page the pager shows as it was. */
  lemma SortKeepsPage(params: Entries, value: string, pageParam: string)
    requires pageParam != SortParam
    ensures Pagination.CurrentPage(HandleSort(params, value), pageParam) == Pagination.CurrentPage(params, pageParam)
  {
  }
}
