/**
 * The flag list page (modsController.flags.list): who may see it, how the
 * query string becomes the filter set and sort handed to the flag store,
 * how a category moderator's filters are confined to their categories,
 * and the `hasFilter`, `expanded` and displayed-sort values of the page.
 */
module FlagList {
  import opened Wrappers
  import opened JsText
  import opened Moderation

  /** The filter names offered to the filter:flags.validateFilters hook. */
  const DefaultFilters: seq<string> :=
    ["assignee", "state", "reporterId", "type", "targetUid", "cid", "quick", "page", "perPage"]

  /** The sort names offered to the filter:flags.validateSort hook. */
  const DefaultSorts: seq<string> := ["newest", "oldest", "reports", "upvotes", "downvotes", "replies"]

  /** A kept filter: a trimmed string, or an array of strings as the query gave it. */
  datatype FilterValue = Single(value: string) | Many(values: seq<string>) {

    /** JavaScript truthiness: arrays are always truthy, strings unless empty. */
    predicate Truthy() {
      Many? || value != ""
    }

    /** The cids a `cid` filter names. */
    function Cids(): seq<string> {
      if Single? then [value] else values
    }
  }

  type Filters = map<string, FilterValue>

  // ---------------------------------------------------------------- sanitising

  /** A query value the sanitiser keeps: a string that is not all white space, or a non-empty array. */
  predicate Keeps(v: QueryValue) {
    (v.Str? && Trim(v.s) != "") || (v.Arr? && v.items != [])
  }

  /** The filter value stored for a kept query value. */
  function Cleaned(v: QueryValue): FilterValue
    requires Keeps(v)
  {
    if v.Str? then Single(Trim(v.s)) else Many(v.items)
  }

  /** One step of the reduce over the valid filter names. */
  function SanitiseStep(memo: Filters, cur: string, query: Query): Filters {
    if cur !in query then memo
    else match query[cur]
      case Str(s) => if Trim(s) != "" then memo[cur := Single(Trim(s))] else memo
      case Arr(items) => if items != [] then memo[cur := Many(items)] else memo
      case Obj => memo
  }

  /** names.reduce(SanitiseStep, memo). */
  function SanitiseFrom(memo: Filters, names: seq<string>, query: Query): (r: Filters)
    ensures forall k :: k in memo ==> k in r
    ensures forall k :: k in r ==> k in memo || (k in names && k in query)
    decreases |names|
  {
    if names == [] then memo else SanitiseFrom(SanitiseStep(memo, names[0], query), names[1..], query)
  }

  /** The filter set built from the query string: only valid names the query carries. */
  function Sanitise(names: seq<string>, query: Query): (r: Filters)
    ensures forall k :: k in r ==> k in names && k in query
  {
    SanitiseFrom(map[], names, query)
  }

  lemma {:induction false} SanitiseFromSpec(memo: Filters, names: seq<string>, query: Query)
    ensures forall k :: k in SanitiseFrom(memo, names, query) <==>
      k in memo || (k in names && k in query && Keeps(query[k]))
    ensures forall k :: k in SanitiseFrom(memo, names, query) ==>
      SanitiseFrom(memo, names, query)[k] ==
        if k in names && k in query && Keeps(query[k]) then Cleaned(query[k]) else memo[k]
    decreases |names|
  {
    if names != [] {
      var next := SanitiseStep(memo, names[0], query);
      assert forall k :: k in next <==> k in memo || (k == names[0] && k in query && Keeps(query[k]));
      assert forall k :: k in next ==>
        next[k] == (if k == names[0] && k in query && Keeps(query[k]) then Cleaned(query[k]) else memo[k]);
      SanitiseFromSpec(next, names[1..], query);
      assert forall k :: k in names <==> k == names[0] || k in names[1..];
    }
  }

  /**
   * Exactly the valid names that the query carries with a keepable value
   * survive, each stored trimmed (strings) or unchanged (arrays).
   */
  lemma SanitiseSpec(names: seq<string>, query: Query)
    ensures forall k :: k in Sanitise(names, query) <==> k in names && k in query && Keeps(query[k])
    ensures forall k :: k in Sanitise(names, query) ==> Sanitise(names, query)[k] == Cleaned(query[k])
  {
    SanitiseFromSpec(map[], names, query);
  }

  /** Every sanitised value is truthy, so `!filters.cid` only tests for absence. */
  lemma SanitisedTruthy(names: seq<string>, query: Query)
    ensures forall k :: k in Sanitise(names, query) ==> Sanitise(names, query)[k].Truthy()
  {
    SanitiseSpec(names, query);
  }

  /** A string value padded with white space is stored without the padding. */
  lemma SanitiseStripsPadding(names: seq<string>, query: Query, k: string, before: string, x: string, after: string)
    requires k in names && k in query && query[k] == Str(before + x + after)
    requires forall i :: 0 <= i < |before| ==> IsWhitespace(before[i])
    requires forall i :: 0 <= i < |after| ==> IsWhitespace(after[i])
    requires x != [] && !IsWhitespace(x[0]) && !IsWhitespace(x[|x| - 1])
    ensures k in Sanitise(names, query) && Sanitise(names, query)[k] == Single(x)
  {
    TrimPadded(before, x, after);
    SanitiseSpec(names, query);
  }

  // ---------------------------------------------------------- category scoping

  /** res.locals.cids: String(cid) for each moderated cid. */
  function CidStrings(cids: seq<int>): (r: seq<string>)
    ensures |r| == |cids|
  {
    seq(|cids|, i requires 0 <= i < |cids| => IntToString(cids[i]))
  }

  /** res.locals.cids holds exactly String(c) for the moderated cids c. */
  lemma CidStringsMembers(cids: seq<int>)
    ensures forall x :: x in CidStrings(cids) <==> exists c :: c in cids && x == IntToString(c)
  {
    var r := CidStrings(cids);
    forall x | x in r
      ensures exists c :: c in cids && x == IntToString(c)
    {
      var i :| 0 <= i < |r| && r[i] == x;
      assert cids[i] in cids;
    }
    forall x | exists c :: c in cids && x == IntToString(c)
      ensures x in r
    {
      var c :| c in cids && x == IntToString(c);
      var i :| 0 <= i < |cids| && cids[i] == c;
      assert r[i] == x;
    }
  }

  /** The categories a listing is confined to: only for a moderator who is not admin or global moderator. */
  function ModerationScope(actor: Actor): (r: Option<seq<string>>)
    ensures r.Some? <==> !actor.IsAdminOrGlobalMod() && |actor.moderatedCids| > 0
  {
    if !actor.IsAdminOrGlobalMod() && |actor.moderatedCids| > 0
    then Some(CidStrings(actor.moderatedCids))
    else None
  }

  /** requested.filter(cid => moderated.includes(cid)): the moderated ones, in their order. */
  function KeepModerated(requested: seq<string>, moderated: seq<string>): (r: seq<string>)
    ensures |r| <= |requested|
    ensures forall x :: x in r <==> x in requested && x in moderated
  {
    if requested == [] then []
    else (if requested[0] in moderated then [requested[0]] else []) + KeepModerated(requested[1..], moderated)
  }

  /** Filtering commutes with concatenation, so the surviving cids keep their relative order. */
  lemma {:induction false} KeepModeratedAppend(a: seq<string>, b: seq<string>, moderated: seq<string>)
    ensures KeepModerated(a + b, moderated) == KeepModerated(a, moderated) + KeepModerated(b, moderated)
  {
    if a != [] {
      assert (a + b)[1..] == a[1..] + b;
      KeepModeratedAppend(a[1..], b, moderated);
    } else {
      assert a + b == b;
    }
  }

  /** A single requested cid the actor does not moderate. */
  predicate IsForeignSingleCid(requested: Filters, moderated: seq<string>) {
    "cid" in requested && requested["cid"].Single? && requested["cid"].value !in moderated
  }

  /**
   * The rewrite of the `cid` filter for a category moderator: after it the
   * filter names only moderated categories, keeps every requested one the
   * actor moderates, and leaves the other filters alone.
   */
  function ScopeCid(requested: Filters, moderated: seq<string>): (r: Filters)
    ensures r.Keys == requested.Keys + {"cid"}
    ensures forall k :: k in requested && k != "cid" ==> r[k] == requested[k]
    ensures forall x :: x in r["cid"].Cids() ==> x in moderated
    ensures "cid" in requested ==>
      forall x :: x in requested["cid"].Cids() && x in moderated ==> x in r["cid"].Cids()
    ensures r["cid"].Single? ==> "cid" in requested && r["cid"] == requested["cid"]
    ensures "cid" !in requested || IsForeignSingleCid(requested, moderated) ==> r["cid"] == Many(moderated)
    ensures "cid" in requested && requested["cid"].Single? && requested["cid"].value in moderated ==>
      r == requested
    ensures "cid" in requested && requested["cid"].Many? ==>
      r["cid"] == Many(KeepModerated(requested["cid"].values, moderated))
  {
    if "cid" !in requested then requested["cid" := Many(moderated)]
    else match requested["cid"]
      case Many(xs) => requested["cid" := Many(KeepModerated(xs, moderated))]
      case Single(c) => if c in moderated then requested else requested["cid" := Many(moderated)]
  }

  // ------------------------------------------------------------ hasFilter, sort

  /** Only pagination keys: exactly {page} or exactly {page, perPage}. */
  predicate PaginationOnly(filters: Filters) {
    (|filters| == 1 && "page" in filters) || (|filters| == 2 && "page" in filters && "perPage" in filters)
  }

  lemma PaginationOnlyKeys(filters: Filters)
    ensures PaginationOnly(filters) <==> filters.Keys == {"page"} || filters.Keys == {"page", "perPage"}
  {
    if |filters| == 1 && "page" in filters {
      assert |filters.Keys - {"page"}| == 0;
    }
    if |filters| == 2 && "page" in filters && "perPage" in filters {
      assert |filters.Keys - {"page", "perPage"}| == 0;
    }
  }

  /** The sort handed to the flag store: unset (the default, newest), invalid (null), or a named sort. */
  datatype Sort = Unset | Invalid | By(name: string)

  /** Sort parsing: a truthy query sort must be a valid sort name; `newest` means unset. */
  function ParseSort(query: Query, sorts: seq<string>): (r: Sort)
    ensures r.By? <==> ("sort" in query && query["sort"].Str? && query["sort"].s in sorts
      && query["sort"].s != "" && query["sort"].s != "newest")
    ensures r.By? ==> query["sort"] == Str(r.name)
    ensures r.Invalid? <==> ("sort" in query && IsTruthy(query["sort"])
      && !(query["sort"].Str? && query["sort"].s in sorts))
  {
    var sort :=
      if "sort" in query && IsTruthy(query["sort"]) then
        (if query["sort"].Str? && query["sort"].s in sorts then By(query["sort"].s) else Invalid)
      else Unset;
    if sort == By("newest") then Unset else sort
  }

  /** The sort the page shows: the named sort, otherwise "newest". */
  function ShownSort(sort: Sort): string {
    if sort.By? then sort.name else "newest"
  }

  /**
   * hasFilter in closed form: some filter was requested, it was not a foreign
   * single cid, and the final filters are not pagination only; or a sort is set.
   */
  predicate HasFilter(requested: Filters, filters: Filters, scope: Option<seq<string>>, sort: Sort) {
    (|requested| > 0 && !(scope.Some? && IsForeignSingleCid(requested, scope.value)) && !PaginationOnly(filters))
    || sort.By?
  }

  /** Whether the advanced filter panel opens: assignee, reporterId or targetUid is set. */
  predicate Expanded(filters: Filters) {
    ("assignee" in filters && filters["assignee"].Truthy())
    || ("reporterId" in filters && filters["reporterId"].Truthy())
    || ("targetUid" in filters && filters["targetUid"].Truthy())
  }

  // ---------------------------------------------------------------- the page

  /**
   * What the page renders and what it hands to the flag store: filters and
   * sort go to flags.list, the rest to the template; scope is res.locals.cids.
   */
  datatype ListView = ListView(
    filters: Filters,
    hasFilter: bool,
    sort: Sort,
    shownSort: string,
    expanded: bool,
    scope: Option<seq<string>>)

  datatype ListOutcome = NotAllowed | Listed(view: ListView)

  /** The flag list page as one expression over the collaborators' answers. */
  function ListSpec(actor: Actor, validFilters: seq<string>, validSorts: seq<string>, query: Query): ListOutcome {
    if !actor.MayModerate() then NotAllowed
    else
      var requested := Sanitise(validFilters, query);
      var scope := ModerationScope(actor);
      var filters := if scope.Some? then ScopeCid(requested, scope.value) else requested;
      var sort := ParseSort(query, validSorts);
      Listed(ListView(filters, HasFilter(requested, filters, scope, sort), sort, ShownSort(sort), Expanded(filters), scope))
  }

  /**
   * The handler, step by step: validFilters and validSorts are what the two
   * validation hooks returned; `cids` plays res.locals.cids.
   */
  method ListFlags(actor: Actor, validFilters: seq<string>, validSorts: seq<string>, query: Query)
    returns (out: ListOutcome)
    ensures out.NotAllowed? <==> !actor.MayModerate()
    ensures out == ListSpec(actor, validFilters, validSorts, query)
  {
    if !(actor.IsAdminOrGlobalMod() || |actor.moderatedCids| > 0) {
      return NotAllowed;
    }
    var cids: Option<seq<string>> := None;
    if !actor.IsAdminOrGlobalMod() && |actor.moderatedCids| > 0 {
      cids := Some(CidStrings(actor.moderatedCids));
    }

    var filters := Sanitise(validFilters, query);
    ghost var requested := filters;
    var hasFilter := |filters| > 0;

    if cids.Some? {
      assert "cid" in filters ==> filters["cid"].Truthy() by {
        SanitisedTruthy(validFilters, query);
      }
      if !("cid" in filters && filters["cid"].Truthy()) {
        filters := filters["cid" := Many(cids.value)];
      } else if filters["cid"].Many? {
        filters := filters["cid" := Many(KeepModerated(filters["cid"].values, cids.value))];
      } else if filters["cid"].value !in cids.value {
        filters := filters["cid" := Many(cids.value)];
        hasFilter := false;
      }
      assert filters == ScopeCid(requested, cids.value);
    }
    assert cids == ModerationScope(actor);
    assert hasFilter == (|requested| > 0 && !(cids.Some? && IsForeignSingleCid(requested, cids.value)));

    if PaginationOnly(filters) {
      hasFilter := false;
    }

    var sort := ParseSort(query, validSorts);
    var sortIsSet := sort.By? && sort.name != "";
    hasFilter := hasFilter || sortIsSet;
    assert hasFilter == HasFilter(requested, filters, cids, sort);

    out := Listed(ListView(filters, hasFilter, sort, if sortIsSet then sort.name else "newest", Expanded(filters), cids));
  }

  // ---------------------------------------------------------------- properties

  /** Admins and global moderators get the sanitised filters untouched and no category scope. */
  lemma UnscopedListing(actor: Actor, validFilters: seq<string>, validSorts: seq<string>, query: Query)
    requires actor.IsAdminOrGlobalMod()
    ensures ListSpec(actor, validFilters, validSorts, query).Listed?
    ensures ListSpec(actor, validFilters, validSorts, query).view.filters == Sanitise(validFilters, query)
    ensures ListSpec(actor, validFilters, validSorts, query).view.scope == None
  {
  }

  /**
   * A category moderator's listing names only categories they moderate, and
   * every other filter is as sanitised.
   */
  lemma ScopedListingNamesModeratedCids(actor: Actor, validFilters: seq<string>, validSorts: seq<string>, query: Query)
    requires !actor.IsAdminOrGlobalMod() && |actor.moderatedCids| > 0
    ensures ListSpec(actor, validFilters, validSorts, query).Listed?
    ensures var f := ListSpec(actor, validFilters, validSorts, query).view.filters;
      "cid" in f && forall x :: x in f["cid"].Cids() ==> exists c :: c in actor.moderatedCids && x == IntToString(c)
    ensures var f := ListSpec(actor, validFilters, validSorts, query).view.filters;
      var requested := Sanitise(validFilters, query);
      forall k :: k in requested && k != "cid" ==> k in f && f[k] == requested[k]
  {
    var cidStrings := CidStrings(actor.moderatedCids);
    var f := ListSpec(actor, validFilters, validSorts, query).view.filters;
    forall x | x in f["cid"].Cids()
      ensures exists c :: c in actor.moderatedCids && x == IntToString(c)
    {
      var i :| 0 <= i < |cidStrings| && cidStrings[i] == x;
      assert actor.moderatedCids[i] in actor.moderatedCids;
    }
  }

  /**
   * Without a category scope and without a sort, hasFilter is false exactly
   * when the filter keys are none, {page} or {page, perPage}.
   */
  lemma HasFilterUnscoped(actor: Actor, validFilters: seq<string>, validSorts: seq<string>, query: Query)
    requires actor.IsAdminOrGlobalMod()
    requires !ParseSort(query, validSorts).By?
    ensures var keys := Sanitise(validFilters, query).Keys;
      ListSpec(actor, validFilters, validSorts, query).view.hasFilter <==>
        !(keys == {} || keys == {"page"} || keys == {"page", "perPage"})
  {
    var requested := Sanitise(validFilters, query);
    PaginationOnlyKeys(requested);
    if requested.Keys == {} {
      assert |requested| == 0;
    }
  }

  /** A valid, non-default sort always counts as a filter and is the one shown. */
  lemma SortCountsAsFilter(actor: Actor, validFilters: seq<string>, validSorts: seq<string>, query: Query)
    requires actor.MayModerate()
    requires "sort" in query && query["sort"].Str? && query["sort"].s in validSorts
    requires query["sort"].s != "" && query["sort"].s != "newest"
    ensures ListSpec(actor, validFilters, validSorts, query).view.hasFilter
    ensures ListSpec(actor, validFilters, validSorts, query).view.sort == By(query["sort"].s)
    ensures ListSpec(actor, validFilters, validSorts, query).view.shownSort == query["sort"].s
  {
  }

  /** Without a valid non-default sort, the page shows "newest". */
  lemma DefaultShownSort(actor: Actor, validFilters: seq<string>, validSorts: seq<string>, query: Query)
    requires actor.MayModerate()
    requires !("sort" in query && query["sort"].Str? && query["sort"].s in validSorts
      && query["sort"].s != "" && query["sort"].s != "newest")
    ensures ListSpec(actor, validFilters, validSorts, query).view.shownSort == "newest"
    ensures !ListSpec(actor, validFilters, validSorts, query).view.sort.By?
  {
  }

  /**
   * A single requested cid the moderator does not moderate is replaced by all
   * their categories and, absent a sort, leaves hasFilter false.
   */
  lemma ForeignSingleCidReplaced(actor: Actor, validFilters: seq<string>, validSorts: seq<string>, query: Query)
    requires !actor.IsAdminOrGlobalMod() && |actor.moderatedCids| > 0
    requires IsForeignSingleCid(Sanitise(validFilters, query), CidStrings(actor.moderatedCids))
    requires !ParseSort(query, validSorts).By?
    ensures ListSpec(actor, validFilters, validSorts, query).view.filters["cid"] == Many(CidStrings(actor.moderatedCids))
    ensures !ListSpec(actor, validFilters, validSorts, query).view.hasFilter
  {
  }

  /**
   * When a category moderator requests no cid, the injected cid keeps the
   * filter set from ever being pagination only: hasFilter is just "something
   * was requested, or a sort is set" (so `?page=2` alone counts as a filter).
   */
  lemma InjectedCidHasFilter(actor: Actor, validFilters: seq<string>, validSorts: seq<string>, query: Query)
    requires !actor.IsAdminOrGlobalMod() && |actor.moderatedCids| > 0
    requires "cid" !in Sanitise(validFilters, query)
    ensures ListSpec(actor, validFilters, validSorts, query).view.hasFilter <==>
      |Sanitise(validFilters, query)| > 0 || ParseSort(query, validSorts).By?
  {
    var requested := Sanitise(validFilters, query);
    var filters := ScopeCid(requested, CidStrings(actor.moderatedCids));
    assert "cid" in filters;
    if PaginationOnly(filters) {
      PaginationOnlyKeys(filters);
      assert false;
    }
  }

  /** An empty query sanitises to no filters, whatever the valid names. */
  lemma SanitiseEmptyQuery(names: seq<string>)
    ensures Sanitise(names, map[]) == map[]
  {
    SanitiseSpec(names, map[]);
  }

  /**
   * A category moderator whose query carries only a page number gets
   * hasFilter true, while the same moderator without any query gets false:
   * the injected cid keeps the filter set from being pagination only.
   */
  lemma CategoryModeratorPaging(actor: Actor, validFilters: seq<string>, validSorts: seq<string>, query: Query)
    requires !actor.IsAdminOrGlobalMod() && |actor.moderatedCids| > 0
    requires "page" in validFilters && query.Keys == {"page"} && Keeps(query["page"])
    ensures ListSpec(actor, validFilters, validSorts, query).view.hasFilter
    ensures !ListSpec(actor, validFilters, validSorts, map[]).view.hasFilter
  {
    SanitiseSpec(validFilters, query);
    assert "page" in Sanitise(validFilters, query);
    InjectedCidHasFilter(actor, validFilters, validSorts, query);
    SanitiseEmptyQuery(validFilters);
    InjectedCidHasFilter(actor, validFilters, validSorts, map[]);
  }

  /** With the controller's own filter and sort lists, `?page=` alone still counts as a filter for a category moderator. */
  lemma DefaultListsCategoryModeratorPaging(actor: Actor, query: Query)
    requires !actor.IsAdminOrGlobalMod() && |actor.moderatedCids| > 0
    requires query.Keys == {"page"} && Keeps(query["page"])
    ensures ListSpec(actor, DefaultFilters, DefaultSorts, query).view.hasFilter
  {
    assert DefaultFilters[7] == "page";
    CategoryModeratorPaging(actor, DefaultFilters, DefaultSorts, query);
  }

  /**
   * A category moderator's array of requested cids is cut down to the
   * moderated ones, in the order requested.
   */
  lemma ScopedArrayCidKeepsOrder(actor: Actor, validFilters: seq<string>, validSorts: seq<string>, query: Query)
    requires !actor.IsAdminOrGlobalMod() && |actor.moderatedCids| > 0
    requires "cid" in validFilters && "cid" in query && query["cid"].Arr? && query["cid"].items != []
    ensures ListSpec(actor, validFilters, validSorts, query).view.filters["cid"] ==
      Many(KeepModerated(query["cid"].items, CidStrings(actor.moderatedCids)))
  {
    SanitiseSpec(validFilters, query);
  }

  /** A single requested cid the actor moderates leaves every filter as sanitised. */
  lemma ScopedModeratedSingleCidKept(actor: Actor, validFilters: seq<string>, validSorts: seq<string>, query: Query)
    requires !actor.IsAdminOrGlobalMod() && |actor.moderatedCids| > 0
    requires "cid" in validFilters && "cid" in query && query["cid"].Str?
    requires Trim(query["cid"].s) in CidStrings(actor.moderatedCids)
    ensures ListSpec(actor, validFilters, validSorts, query).view.filters == Sanitise(validFilters, query)
  {
    SanitiseSpec(validFilters, query);
    var m := CidStrings(actor.moderatedCids);
    assert Trim(query["cid"].s) != "" by {
      var i :| 0 <= i < |m| && m[i] == Trim(query["cid"].s);
    }
  }

  /** The advanced panel opens exactly when assignee, reporterId or targetUid survived sanitising. */
  lemma ExpandedIffAdvancedFilter(actor: Actor, validFilters: seq<string>, validSorts: seq<string>, query: Query)
    requires actor.MayModerate()
    ensures var requested := Sanitise(validFilters, query);
      ListSpec(actor, validFilters, validSorts, query).view.expanded <==>
        "assignee" in requested || "reporterId" in requested || "targetUid" in requested
  {
    SanitisedTruthy(validFilters, query);
  }
}
