/**
 * The home page (app/page.tsx): its state cells, the query string it
 * sends for the current filters, and how a saved entry replaces its
 * previous version in the list. What a `fetch` brings back is a
 * parameter of the method that consumes it.
 */
module HomePage {
  import opened Wrappers
  import opened Types
  import FilterBar
  import EntriesRoute

  /** One query pair under `key`, present only when `value` is non-empty. */
  function OptionalPair(key: string, value: string): seq<(string, string)>
  {
    if value != "" then [(key, value)] else []
  }

  /** The `URLSearchParams` built for the filters: one pair per non-empty field, in a fixed order. */
  function UrlParams(f: FilterBar.Filters): (ps: seq<(string, string)>)
    ensures |ps| <= 5
    ensures forall i :: 0 <= i < |ps| ==> ps[i].1 != ""
  {
    OptionalPair("store_name", f.store_name)
    + (OptionalPair("date_of_purchase", f.date_of_purchase)
    + (OptionalPair("date_from", f.date_from)
    + (OptionalPair("date_to", f.date_to)
    + OptionalPair("approved", f.approved))))
  }

  /** `searchParams.get(key)`: the first value under `key`, `None` when there is none. */
  function LookupParam(ps: seq<(string, string)>, key: string): Option<string>
  {
    if ps == [] then None
    else if ps[0].0 == key then Some(ps[0].1)
    else LookupParam(ps[1..], key)
  }

  /** The five parameters the entries route reads from a query string. */
  function Received(ps: seq<(string, string)>): EntriesRoute.SearchParams
  {
    EntriesRoute.SearchParams(
      LookupParam(ps, "store_name"),
      LookupParam(ps, "date_of_purchase"),
      LookupParam(ps, "date_from"),
      LookupParam(ps, "date_to"),
      LookupParam(ps, "approved"))
  }

  function NonEmpty(s: string): Option<string>
  {
    if s == "" then None else Some(s)
  }

  /** Looking up a key through an optional pair under another key. */
  lemma LookupPast(k: string, v: string, rest: seq<(string, string)>, key: string)
    requires k != key
    ensures LookupParam(OptionalPair(k, v) + rest, key) == LookupParam(rest, key)
  {
    if v != "" {
      assert (OptionalPair(k, v) + rest)[1..] == rest;
    } else {
      assert OptionalPair(k, v) + rest == rest;
    }
  }

  /** Looking up a key at its own optional pair. */
  lemma LookupAt(k: string, v: string, rest: seq<(string, string)>)
    ensures LookupParam(OptionalPair(k, v) + rest, k) == if v != "" then Some(v) else LookupParam(rest, k)
  {
    if v == "" {
      assert OptionalPair(k, v) + rest == rest;
    }
  }

  /**
   * The route receives exactly the non-empty filter fields: a field is sent
   * only when it is non-empty, and an empty one arrives as absent.
   */
  lemma RequestCarriesFilters(f: FilterBar.Filters)
    ensures Received(UrlParams(f))
            == EntriesRoute.SearchParams(NonEmpty(f.store_name), NonEmpty(f.date_of_purchase),
                                         NonEmpty(f.date_from), NonEmpty(f.date_to), NonEmpty(f.approved))
  {
    var a := OptionalPair("approved", f.approved);
    var hi := OptionalPair("date_to", f.date_to) + a;
    var lo := OptionalPair("date_from", f.date_from) + hi;
    var d := OptionalPair("date_of_purchase", f.date_of_purchase) + lo;
    assert UrlParams(f) == OptionalPair("store_name", f.store_name) + d;
    // store_name
    LookupAt("store_name", f.store_name, d);
    LookupPast("date_of_purchase", f.date_of_purchase, lo, "store_name");
    LookupPast("date_from", f.date_from, hi, "store_name");
    LookupPast("date_to", f.date_to, a, "store_name");
    LookupPast("approved", f.approved, [], "store_name");
    assert a + [] == a;
    // date_of_purchase
    LookupPast("store_name", f.store_name, d, "date_of_purchase");
    LookupAt("date_of_purchase", f.date_of_purchase, lo);
    LookupPast("date_from", f.date_from, hi, "date_of_purchase");
    LookupPast("date_to", f.date_to, a, "date_of_purchase");
    LookupPast("approved", f.approved, [], "date_of_purchase");
    // date_from
    LookupPast("store_name", f.store_name, d, "date_from");
    LookupPast("date_of_purchase", f.date_of_purchase, lo, "date_from");
    LookupAt("date_from", f.date_from, hi);
    LookupPast("date_to", f.date_to, a, "date_from");
    LookupPast("approved", f.approved, [], "date_from");
    // date_to
    LookupPast("store_name", f.store_name, d, "date_to");
    LookupPast("date_of_purchase", f.date_of_purchase, lo, "date_to");
    LookupPast("date_from", f.date_from, hi, "date_to");
    LookupAt("date_to", f.date_to, a);
    LookupPast("approved", f.approved, [], "date_to");
    // approved
    LookupPast("store_name", f.store_name, d, "approved");
    LookupPast("date_of_purchase", f.date_of_purchase, lo, "approved");
    LookupPast("date_from", f.date_from, hi, "approved");
    LookupPast("date_to", f.date_to, a, "approved");
    LookupAt("approved", f.approved, []);
  }

  /** Position of a query key in the page's fixed order. */
  function KeyRank(key: string): nat
  {
    if key == "store_name" then 0
    else if key == "date_of_purchase" then 1
    else if key == "date_from" then 2
    else if key == "date_to" then 3
    else 4
  }

  /** Keys appear in strictly increasing rank, each above `floor`, with non-empty values. */
  predicate RankedAbove(ps: seq<(string, string)>, floor: int)
  {
    && (forall i :: 0 <= i < |ps| ==> floor < KeyRank(ps[i].0) && ps[i].1 != "")
    && (forall i, j :: 0 <= i < j < |ps| ==> KeyRank(ps[i].0) < KeyRank(ps[j].0))
  }

  lemma PrependRanked(k: string, v: string, rest: seq<(string, string)>, floor: int)
    requires floor < KeyRank(k)
    requires RankedAbove(rest, KeyRank(k))
    ensures RankedAbove(OptionalPair(k, v) + rest, floor)
    ensures |OptionalPair(k, v) + rest| <= |rest| + 1
  {
  }

  /** Pairs are appended in the fixed order store_name, date_of_purchase, date_from, date_to, approved. */
  lemma UrlParamsOrder(f: FilterBar.Filters)
    ensures |UrlParams(f)| <= 5
    ensures forall i, j :: 0 <= i < j < |UrlParams(f)| ==> KeyRank(UrlParams(f)[i].0) < KeyRank(UrlParams(f)[j].0)
    ensures forall i :: 0 <= i < |UrlParams(f)| ==> UrlParams(f)[i].1 != ""
  {
    var a := OptionalPair("approved", f.approved);
    var hi := OptionalPair("date_to", f.date_to) + a;
    var lo := OptionalPair("date_from", f.date_from) + hi;
    var d := OptionalPair("date_of_purchase", f.date_of_purchase) + lo;
    PrependRanked("approved", f.approved, [], 3);
    assert a + [] == a;
    PrependRanked("date_to", f.date_to, a, 2);
    PrependRanked("date_from", f.date_from, hi, 1);
    PrependRanked("date_of_purchase", f.date_of_purchase, lo, 0);
    PrependRanked("store_name", f.store_name, d, -1);
  }

  /** The five keys the page sends, which are the five the route reads. */
  predicate IsFilterKey(key: string)
  {
    key == "store_name" || key == "date_of_purchase" || key == "date_from" || key == "date_to" || key == "approved"
  }

  /** How many of the five filter fields are non-empty. */
  function FilledFields(f: FilterBar.Filters): nat
  {
    (if f.store_name != "" then 1 else 0) + (if f.date_of_purchase != "" then 1 else 0)
    + (if f.date_from != "" then 1 else 0) + (if f.date_to != "" then 1 else 0)
    + (if f.approved != "" then 1 else 0)
  }

  lemma PrependKeyed(k: string, v: string, rest: seq<(string, string)>)
    requires IsFilterKey(k)
    requires forall i :: 0 <= i < |rest| ==> IsFilterKey(rest[i].0)
    ensures forall i :: 0 <= i < |OptionalPair(k, v) + rest| ==> IsFilterKey((OptionalPair(k, v) + rest)[i].0)
    ensures |OptionalPair(k, v) + rest| == (if v != "" then 1 else 0) + |rest|
  {
  }

  /**
   * The query string holds nothing but the filters: every key is one of
   * the five filter keys, and there is one pair per non-empty field.
   */
  lemma UrlParamsKeys(f: FilterBar.Filters)
    ensures forall i :: 0 <= i < |UrlParams(f)| ==> IsFilterKey(UrlParams(f)[i].0)
    ensures |UrlParams(f)| == FilledFields(f)
  {
    var a := OptionalPair("approved", f.approved);
    var hi := OptionalPair("date_to", f.date_to) + a;
    var lo := OptionalPair("date_from", f.date_from) + hi;
    var d := OptionalPair("date_of_purchase", f.date_of_purchase) + lo;
    PrependKeyed("approved", f.approved, []);
    assert a + [] == a;
    PrependKeyed("date_to", f.date_to, a);
    PrependKeyed("date_from", f.date_from, hi);
    PrependKeyed("date_of_purchase", f.date_of_purchase, lo);
    PrependKeyed("store_name", f.store_name, d);
  }

  /**
   * The status select reaches the query: "All" (the empty value) sends no
   * `approved` parameter and so adds no approval clause; any other value
   * adds one, bound to whether it is "true".
   */
  lemma StatusFilterQuery(f: FilterBar.Filters)
    ensures f.approved == "" ==>
      EntriesRoute.Bound(EntriesRoute.Conditions(Received(UrlParams(f))), "approved", "=") == []
    ensures f.approved != "" ==>
      EntriesRoute.Bound(EntriesRoute.Conditions(Received(UrlParams(f))), "approved", "=")
      == [EntriesRoute.BoolParam(f.approved == "true")]
  {
    RequestCarriesFilters(f);
    EntriesRoute.FilterBindings(Received(UrlParams(f)));
  }

  /**
   * A named date preset makes the route filter by that range and not by a
   * single date; any other key clears both and the route filters by neither.
   */
  lemma DatePresetQuery(prev: FilterBar.Filters, range: string, year: int, month: nat)
    requires month < 12
    ensures var cs := EntriesRoute.Conditions(Received(UrlParams(FilterBar.HandleDateRangeClick(prev, range, year, month))));
      var dr := FilterBar.GetDateRange(range, year, month);
      && EntriesRoute.Bound(cs, "date_of_purchase", "=") == []
      && (FilterBar.IsNamedRange(range) ==>
            EntriesRoute.Bound(cs, "date_of_purchase", ">=") == [EntriesRoute.TextParam(dr.from)]
            && EntriesRoute.Bound(cs, "date_of_purchase", "<=") == [EntriesRoute.TextParam(dr.to)])
      && (!FilterBar.IsNamedRange(range) ==>
            EntriesRoute.Bound(cs, "date_of_purchase", ">=") == []
            && EntriesRoute.Bound(cs, "date_of_purchase", "<=") == [])
  {
    var f := FilterBar.HandleDateRangeClick(prev, range, year, month);
    RequestCarriesFilters(f);
    EntriesRoute.FilterBindings(Received(UrlParams(f)));
    if FilterBar.IsNamedRange(range) {
      var y, m1, d1, m2, d2 := FilterBar.NamedRangeOrdered(range, year, month);
    } else {
      FilterBar.UnknownRangeIsEmpty(range, year, month);
    }
  }

  /** `entries.map(e => e.id === saved.id ? saved : e)`. */
  function ReplaceById(entries: seq<Entry>, saved: Entry): (r: seq<Entry>)
    ensures |r| == |entries|
  {
    if entries == [] then []
    else [if entries[0].id == saved.id then saved else entries[0]] + ReplaceById(entries[1..], saved)
  }

  /**
   * Replacing keeps the length; exactly the entries with the saved entry's
   * id become the saved entry, and every other entry stays where it was.
   */
  lemma {:induction false} ReplaceByIdSpec(entries: seq<Entry>, saved: Entry)
    ensures |ReplaceById(entries, saved)| == |entries|
    ensures forall i :: 0 <= i < |entries| && entries[i].id == saved.id ==> ReplaceById(entries, saved)[i] == saved
    ensures forall i :: 0 <= i < |entries| && entries[i].id != saved.id ==> ReplaceById(entries, saved)[i] == entries[i]
    decreases |entries|
  {
    if entries != [] {
      ReplaceByIdSpec(entries[1..], saved);
    }
  }

  /** Saving the same entry again changes nothing more. */
  lemma ReplaceByIdIdempotent(entries: seq<Entry>, saved: Entry)
    ensures ReplaceById(ReplaceById(entries, saved), saved) == ReplaceById(entries, saved)
  {
    var once := ReplaceById(entries, saved);
    ReplaceByIdSpec(entries, saved);
    ReplaceByIdSpec(once, saved);
  }

  /** The page's state cells. */
  class HomeState {
    var entries: seq<Entry>
    var selectedEntry: Option<Entry>
    var filters: FilterBar.Filters
    var loading: bool

    /** First render: no entries, nothing selected, every filter empty, loading. */
    constructor ()
      ensures entries == [] && selectedEntry == None && loading
      ensures forall k :: FilterBar.GetFilter(filters, k) == ""
    {
      entries := [];
      selectedEntry := None;
      filters := FilterBar.Filters("", "", "", "", "");
      loading := true;
    }

    /** `setFilters`, as the filter bar calls it. */
    method SetFilters(f: FilterBar.Filters)
      modifies this
      ensures filters == f
      ensures entries == old(entries) && selectedEntry == old(selectedEntry) && loading == old(loading)
    {
      filters := f;
    }

    /** `setSelectedEntry(e)`, from the list's `onSelect` or the detail panel's `onEntryChange`. */
    method Select(e: Entry)
      modifies this
      ensures selectedEntry == Some(e)
      ensures entries == old(entries) && filters == old(filters) && loading == old(loading)
    {
      selectedEntry := Some(e);
    }

    /** The fetch effect up to its request: loading is set and the query string is built from the filters. */
    method BeginFetch() returns (request: seq<(string, string)>)
      modifies this
      ensures loading && request == UrlParams(filters)
      ensures entries == old(entries) && selectedEntry == old(selectedEntry) && filters == old(filters)
    {
      loading := true;
      request := UrlParams(filters);
    }

    /**
     * The rest of the fetch effect. `response` is the parsed list, or `None`
     * when the request or its parsing throws: a list replaces the entries
     * and clears the selection; a throw leaves both. Loading ends either way.
     */
    method EndFetch(response: Option<seq<Entry>>)
      modifies this
      ensures !loading && filters == old(filters)
      ensures response.Some? ==> entries == response.value && selectedEntry == None
      ensures response.None? ==> entries == old(entries) && selectedEntry == old(selectedEntry)
    {
      if response.Some? {
        entries := response.value;
        selectedEntry := None;
      }
      loading := false;
    }

    /**
     * `handleSave(updated)`: `updated` is sent; `response` is the saved
     * entry of an OK response, `None` for any other outcome. An OK response's entry
     * becomes the selection and replaces the entries with its id; anything
     * else leaves the page as it was.
     */
    method HandleSave(updated: Entry, response: Option<Entry>) returns (request: Entry)
      modifies this
      ensures request == updated
      ensures response.Some? ==> selectedEntry == response && entries == ReplaceById(old(entries), response.value)
      ensures response.None? ==> selectedEntry == old(selectedEntry) && entries == old(entries)
      ensures filters == old(filters) && loading == old(loading)
    {
      request := updated;
      if response.Some? {
        var saved := response.value;
        selectedEntry := Some(saved);
        entries := ReplaceById(entries, saved);
      }
    }

    /**
     * `handleApprove()`: nothing without a selection; otherwise the
     * selection is saved with `approved` set to true and every other field
     * as it was.
     */
    method HandleApprove(response: Option<Entry>) returns (request: Option<Entry>)
      modifies this
      ensures old(selectedEntry).None? ==>
        request == None && selectedEntry == old(selectedEntry) && entries == old(entries)
      ensures old(selectedEntry).Some? ==>
        && request.Some?
        && request.value.id == old(selectedEntry).value.id
        && request.value.created_at == old(selectedEntry).value.created_at
        && Get(request.value, Approved) == Flag(true)
        && (forall f :: f != Approved ==> Get(request.value, f) == Get(old(selectedEntry).value, f))
      ensures old(selectedEntry).Some? && response.Some? ==>
        selectedEntry == response && entries == ReplaceById(old(entries), response.value)
      ensures old(selectedEntry).Some? && response.None? ==>
        selectedEntry == old(selectedEntry) && entries == old(entries)
      ensures filters == old(filters) && loading == old(loading)
    {
      if selectedEntry.None? {
        return None;
      }
      var sent := HandleSave(selectedEntry.value.(approved := true), response);
      request := Some(sent);
    }
  }
}
