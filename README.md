# Moderation controller of NodeBB, modelled in Dafny

This project models the decision rules of NodeBB's moderation controller
(`src/controllers/mods.ts`), which serves three pages:

- the flag list (`flags.list`),
- the flag detail page (`flags.detail`),
- the post queue (`flags.postQueue`).

Each collaborator answer, and each value the user module or a plugin hook
supplies, is a parameter. The model works on plain data: an `Actor`
(admin flag, global-moderator flag, moderated category ids), the query string
as a map of `Str`, `Arr` or `Obj` values, the flag record, and the queued posts.

Modules, one per concern:

- `Wrappers`: `Option`. It stands for `undefined`, `null` and `NaN`.
- `JsText`: the JavaScript string operations the controller relies on.
  This covers `trim()` with ECMAScript's full white-space set,
  `String(n)` for integers, `String(array)`, and `parseInt(s, 10)`.
  Numbers are unbounded integers; "## Left out" says what that leaves aside.
- `Moderation`: the actor, the query value type, and the shared
  "may moderate" test.
- `FlagList`: filter sanitising (the `reduce` over the valid filter names)
  and category scoping for category-only moderators. It also covers
  `hasFilter`, sort parsing, `expanded`, and the handler `ListFlags`.
  `ListFlags` reassigns `filters` and `hasFilter` step by step, as the
  source does, and is proved equal to the closed-form `ListSpec`.
- `FlagDetail`: the combined not-found gate, the admin-only history,
  `type_path`, the `type_bool` reduce, and the handler `ShowDetail`.
  `ShowDetail` updates its local copy of the flag record field by field.
- `PostQueue`: the visibility filter, page parsing, the page count,
  JavaScript `slice` with its negative-index rules, and the breadcrumbs.
  The handler `ShowQueue` reassigns `postData` through filter, hook and slice.

Behaviour of the code worth knowing, which the model keeps as written:

- **`hasFilter` for category moderators.** The pagination-only test
  (mods.ts:108-117) runs on the filters after scoping has added `cid`
  (mods.ts:85-89). So a category moderator whose query holds only `page`, as
  in `?page=2`, gets `hasFilter = true`. The same moderator with no query gets
  `false`. `FlagList.InjectedCidHasFilter` and `FlagList.CategoryModeratorPaging`
  prove this. "Pagination alone is not a filter" holds only for admins and
  global moderators (`FlagList.HasFilterUnscoped`).
- **Invalid sort.** A truthy sort that is not a valid sort name gives `null`
  (`Sort.Invalid`), which is distinct from unset (`Sort.Unset`). Only the
  displayed sort, `"newest"`, is the same for both.
- **Page numbers.** `parseInt(page, 10) || 1` falls back to page 1 only for
  NaN and 0. A negative page such as `-2` is kept and then sliced with
  JavaScript's negative-index rules (`PostQueue.NegativePageKept`,
  `PostQueue.PageWindowOfNegativePage`).
- **Flag without a target.** `type_bool.empty` calls `Object.keys(target)`,
  which throws when the flag has no target. The model returns
  `DetailOutcome.Failed` in that case.

## Model

| member | source | states |
|---|---|---|
| `JsText.Trim` | src/controllers/mods.ts:62-65 | `trim()` gives "" exactly when the string is all white space. Otherwise the result starts and ends with a non-white character. |
| `JsText.TrimStartAt` | src/controllers/mods.ts:62-65 | Dropping leading white space stops at the first non-white character. |
| `JsText.TrimEndAt` | src/controllers/mods.ts:62-65 | Dropping trailing white space stops after the last non-white character. |
| `JsText.TrimCharacterised` | src/controllers/mods.ts:62-65 | If s[i..j] is bounded by non-white characters and only white space lies outside it, `s.trim()` is exactly s[i..j]. With Trim's own contract, this fixes the result for every string. |
| `JsText.TrimPadded` | src/controllers/mods.ts:62-65 | `(before + x + after).trim()` is x when before and after are white space and x is bounded by non-white characters. |
| `JsText.JoinWithCommas` | src/controllers/mods.ts:268 | `String(array)`: one element gives that element. Several give the first element followed by a comma. |
| `JsText.NatToString` | src/controllers/mods.ts:50 | `String(n)` for n ≥ 0 is a non-empty digit string. It starts with '0' only for n = 0. |
| `JsText.IntToString` | src/controllers/mods.ts:50 | `String(n)` starts with '-' exactly for negative n. |
| `JsText.ParseInt` | src/controllers/mods.ts:268 | `parseInt(s, 10)` is NaN exactly when no digit follows the leading white space and one optional sign. |
| `JsText.DigitsValueOfNatToString` | src/controllers/mods.ts:50 | The digits `String(n)` writes have the value n. |
| `JsText.ParseDigits` | src/controllers/mods.ts:268 | The digit run is NaN exactly when the text does not start with a digit. |
| `JsText.ParseIntOfNatDigits` | src/controllers/mods.ts:268 | The digits of n ≥ 0 followed by a non-digit parse as n. |
| `JsText.ParseIntOfNegativeDigits` | src/controllers/mods.ts:268 | `-` and the digits of -n, followed by a non-digit, parse as n for n < 0. |
| `JsText.ParseIntFollowedBy` | src/controllers/mods.ts:268 | `parseInt` reads `String(n)` back as n even when a non-digit (such as a comma) follows it. |
| `JsText.ParseIntOfIntToString` | src/controllers/mods.ts:268 | `parseInt(String(n), 10) == n` for every integer n, as unbounded integers (round trip). |
| `Moderation.Actor.MayModerate` | src/controllers/mods.ts:41 | Admin, global moderator, or moderator of at least one category: the flag list's gate (line 41), the flag detail's gate (line 192) and the post queue's `canAccept` flag (line 316). The post queue itself is gated only on being logged in. |
| `Moderation.IsTruthy` | src/controllers/mods.ts:123 | JavaScript truthiness of a query value: only the empty string is falsy. |
| `Moderation.ToJsString` | src/controllers/mods.ts:268 | The `String()` coercion `parseInt` applies to the query value: a string as is, an array joined by commas, an object as `[object Object]`. |
| `FlagList.SanitiseStep` | src/controllers/mods.ts:59-75 | One step of the reduce: a present name with a non-blank string is stored trimmed, with a non-empty array is stored as is, and otherwise is skipped. |
| `FlagList.SanitiseFrom` | src/controllers/mods.ts:56-76 | The reduce from a given memo keeps every memo key. It adds only names that are valid and present in the query. |
| `FlagList.Sanitise` | src/controllers/mods.ts:56-76 | Every sanitised key is a valid filter name that the query carries. |
| `FlagList.SanitiseFromSpec` | src/controllers/mods.ts:56-76 | Each step of the reduce keeps the earlier entries. It adds exactly the valid names whose query value is keepable, each as its cleaned value. |
| `FlagList.SanitiseSpec` | src/controllers/mods.ts:56-76 | A key is in the filter set iff it is a valid name, is present in the query, and its value is a non-blank string or a non-empty array. Strings are stored trimmed; arrays are stored unchanged. |
| `FlagList.SanitisedTruthy` | src/controllers/mods.ts:56-76 | Every sanitised value is truthy, so `!filters.cid` tests only whether `cid` is absent. |
| `FlagList.SanitiseEmptyQuery` | src/controllers/mods.ts:56-76 | An empty query sanitises to no filters, whatever the valid names. |
| `FlagList.SanitiseStripsPadding` | src/controllers/mods.ts:62-65 | A string value with white space around it is stored without that white space. |
| `FlagList.CidStrings` | src/controllers/mods.ts:50 | `moderatedCids.map(String)`: one string per moderated cid. |
| `FlagList.CidStringsMembers` | src/controllers/mods.ts:50 | A string is in `res.locals.cids` iff it is `String(c)` for some moderated cid c. |
| `FlagList.ModerationScope` | src/controllers/mods.ts:47-51 | `res.locals.cids` is set iff the actor is neither admin nor global moderator and moderates at least one category. |
| `FlagList.KeepModerated` | src/controllers/mods.ts:96 | A requested cid survives iff it is moderated. The result is no longer than the request. |
| `FlagList.KeepModeratedAppend` | src/controllers/mods.ts:96 | The cid filter distributes over concatenation, so the surviving cids keep their order. |
| `FlagList.ScopeCid` | src/controllers/mods.ts:82-105 | After scoping, `cid` names only moderated categories and keeps every requested moderated one. The other filters are unchanged. A missing cid, or a foreign single cid, becomes the full moderated list. A moderated single cid leaves the filters unchanged. An array becomes its order-preserving moderated sub-list. |
| `FlagList.PaginationOnlyKeys` | src/controllers/mods.ts:108-115 | The two length-and-key tests hold iff the key set is exactly {page} or exactly {page, perPage}. |
| `FlagList.ParseSort` | src/controllers/mods.ts:120-130 | The sort is set iff the query gives a string that is a valid sort, non-empty and not `newest`; it is then that string. It is invalid (`null`) iff the query gives a truthy value that is not a valid sort name. |
| `FlagList.ShownSort` | src/controllers/mods.ts:161 | `sort \|\| 'newest'`: the named sort, otherwise `newest`. |
| `FlagList.HasFilter` | src/controllers/mods.ts:78-131 | hasFilter in closed form: some filter was requested, it was not a foreign single cid, and the final filters are not pagination only; or a named sort is set. `ListFlags` is proved to compute it. |
| `FlagList.Expanded` | src/controllers/mods.ts:160 | Whether assignee, reporterId or targetUid is truthy in the final filters. |
| `FlagList.ListSpec` | src/controllers/mods.ts:21-168 | The flag list page as one expression over the collaborators' answers. The lemmas below are stated about it. |
| `FlagList.ListFlags` | src/controllers/mods.ts:21-168 | The handler returns "not allowed" iff the actor may not moderate. Otherwise its step-by-step result equals the closed form `ListSpec`. |
| `FlagList.UnscopedListing` | src/controllers/mods.ts:47-51 | For admins and global moderators, the filters are exactly the sanitised ones and no scope is set. |
| `FlagList.ScopedListingNamesModeratedCids` | src/controllers/mods.ts:82-105 | For a category moderator, every cid in the listing is `String(c)` for some category c the actor moderates. All other sanitised filters pass through. |
| `FlagList.HasFilterUnscoped` | src/controllers/mods.ts:78-117 | Without a scope and without a sort, `hasFilter` is false iff the keys are none, {page} or {page, perPage}. |
| `FlagList.SortCountsAsFilter` | src/controllers/mods.ts:128-131 | A valid sort other than `newest` sets `hasFilter`, is passed to the store, and is the sort shown. |
| `FlagList.DefaultShownSort` | src/controllers/mods.ts:161 | Without a valid non-default sort, the page shows `newest` and no sort reaches the store. |
| `FlagList.ForeignSingleCidReplaced` | src/controllers/mods.ts:99-104 | A single unmoderated cid is replaced by all moderated cids. Without a sort, `hasFilter` is then false. |
| `FlagList.InjectedCidHasFilter` | src/controllers/mods.ts:78-117 | When a category moderator requests no cid, `hasFilter` holds iff some filter was requested or a sort is set. |
| `FlagList.CategoryModeratorPaging` | src/controllers/mods.ts:78-117 | A category moderator with only `page` in the query gets `hasFilter` true. With an empty query the result is false. |
| `FlagList.DefaultListsCategoryModeratorPaging` | src/controllers/mods.ts:22-23 | With the controller's own lists of valid filters and sorts, `?page=` alone counts as a filter for a category moderator. |
| `FlagList.ScopedArrayCidKeepsOrder` | src/controllers/mods.ts:92-96 | For a category moderator, a requested cid array becomes its moderated members, in the order requested. |
| `FlagList.ScopedModeratedSingleCidKept` | src/controllers/mods.ts:99 | For a category moderator, a single requested cid they moderate leaves every filter as sanitised. |
| `FlagList.ExpandedIffAdvancedFilter` | src/controllers/mods.ts:160 | `expanded` holds iff assignee, reporterId or targetUid survived sanitising. |
| `FlagDetail.TypeBoolStep` | src/controllers/mods.ts:218-236 | One reduce step: post and user are set from the flag type and target, and empty from the target's key count. It throws (None) for empty without a target. |
| `FlagDetail.TypeBool` | src/controllers/mods.ts:218-237 | The reduce over post, user and empty from an empty memo; TypeBoolSpec gives its result. |
| `FlagDetail.TypeBoolFromSpec` | src/controllers/mods.ts:218-237 | The reduce throws iff it reaches `empty` with no target. Otherwise each visited tag maps to its value and the earlier entries are kept. |
| `FlagDetail.TypeBoolFromNone` | src/controllers/mods.ts:218-237 | Once the reduce has thrown, no later tag recovers it. |
| `FlagDetail.TypeBoolSpec` | src/controllers/mods.ts:218-237 | `type_bool` exists iff the flag has a target. It then has the keys post, user and empty. post/user hold iff the flag has that type and a non-empty target; empty holds iff the target has no keys. |
| `FlagDetail.TypeBoolSelectsOneBranch` | src/controllers/mods.ts:218-237 | For a post or user flag, exactly one of the three entries is true. |
| `FlagDetail.ShowDetail` | src/controllers/mods.ts:170-250 | The result is not found (404) iff the flag is absent or the actor may not moderate; the two cases are indistinguishable. History is given iff the actor is admin or global moderator, else null. `type_path` is `uid` for user flags and `post` for post flags, else unchanged. A missing target throws. |
| `PostQueue.Visible` | src/controllers/mods.ts:289-292 | A post is visible when it lies in the selected categories (or none are selected), and the actor is admin, global moderator, its category's moderator, or its author. |
| `PostQueue.VisiblePosts` | src/controllers/mods.ts:286-292 | A post is kept iff it is non-null, lies in the selected categories (or none are selected), and the actor is admin, global moderator, its category's moderator, or its author. |
| `PostQueue.VisiblePostsAppend` | src/controllers/mods.ts:286-292 | The filter distributes over concatenation, so kept posts stay in their original order. |
| `PostQueue.VisiblePostsKeepsAllForAdmins` | src/controllers/mods.ts:286-292 | With no category selected, an admin or global moderator keeps exactly the non-null posts of any list, in order (`NonNullPosts`). A list without null entries is kept whole. |
| `PostQueue.ParsePage` | src/controllers/mods.ts:268 | The page number is never 0. A missing page or a value `parseInt` reads as NaN gives 1; a parsed number other than 0 is kept. |
| `PostQueue.ParsePageNaN` | src/controllers/mods.ts:268 | A string `parseInt` reads as NaN (no digit after its leading white space and optional sign) gives page 1. |
| `PostQueue.ParsePageEmptyOrWord` | src/controllers/mods.ts:268 | `?page=` and `?page=abc` give page 1. |
| `PostQueue.ParsePageOfNumber` | src/controllers/mods.ts:268 | A decimal page number reads back as itself, except `0`, which gives 1. |
| `PostQueue.ParsePageOfArray` | src/controllers/mods.ts:268 | A repeated `page` parameter arrives as an array and is joined with commas. So for any number n followed by further values, the page is n (or 1 when n is 0). |
| `PostQueue.ParsePageMissing` | src/controllers/mods.ts:268 | A missing page, or an object value, gives page 1. |
| `PostQueue.NegativePageKept` | src/controllers/mods.ts:268 | `?page=-2` gives page -2, not 1. |
| `PostQueue.PageCount` | src/controllers/mods.ts:299 | The page count is at least 1, and exactly 1 for no posts. Otherwise it is the least count such that that many pages of 20 hold all posts. |
| `PostQueue.SliceIndex` | src/controllers/mods.ts:302 | `slice` clamps a non-negative index to the length. A negative index counts from the end, clamped at 0. |
| `PostQueue.JsSlice` | src/controllers/mods.ts:302 | `slice(start, end)` returns the elements from the normalised start up to the normalised end, in order, or none when the end is not past the start. When start ≤ end it returns at most end - start elements. |
| `PostQueue.PageWindow` | src/controllers/mods.ts:300-302 | A page never holds more than 20 posts, for any page number. |
| `PostQueue.PageWindowOfPositivePage` | src/controllers/mods.ts:300-302 | For page ≥ 1 the window is `list[(page-1)*20 .. min(n, (page-1)*20+20))`, or empty past the end. |
| `PostQueue.PagesUpToPageCount` | src/controllers/mods.ts:299-302 | If there are posts, every page from 1 to the page count is non-empty. Every page beyond the count is empty. |
| `PostQueue.PaginationExample` | src/controllers/mods.ts:299-302 | With 45 posts there are 3 pages, and page 2 is posts 20..39. No posts gives one empty page. |
| `PostQueue.PageWindowOfNegativePage` | src/controllers/mods.ts:300-302 | For page p < 0 of n posts, the window is `list[max(0, n+(p-1)*20) .. max(0, n+p*20))`, or empty when that range is empty. |
| `PostQueue.NegativePageWindow` | src/controllers/mods.ts:300-302 | Page -1 of 45 posts is posts 5..24, since `slice` counts negative indices from the end. |
| `PostQueue.IdGiven` | src/controllers/mods.ts:303-304 | `req.params.id` is truthy: present and non-empty. |
| `PostQueue.IsReply` | src/controllers/mods.ts:307 | `data.tid` is truthy: present and non-zero. |
| `PostQueue.ShowQueue` | src/controllers/mods.ts:252-325 | A visitor who is not logged in gets not found. Otherwise the shown posts are the page window over the hook's output for the visible posts, with the page count of that output. canAccept is admin ∨ global moderator ∨ moderates some category. The first crumb links back iff an id was given. A second crumb, reply iff `data.tid` is truthy and topic otherwise, appears iff an id was given and the page is non-empty. |

## Left out

- Collaborators are parameters, not models: `user.*`, `flags.get`, `flags.list` (its returned page and page count), `flags.getHistory`, `posts.getQueuedPosts`, `helpers.getSelectedCategory`, `user.getAdminsandGlobalModsandModerators`. The flag store's own filtering and pagination are not part of this model.
- `analytics.getDailyStatsForSet` with `Date.now()`: clock and storage I/O. The analytics series is not part of the list view.
- `privileges[type].get` and the shallow merge of the two privilege bundles. The merge is a JavaScript object spread over data the model does not see.
- `flags._states`, titles, `helpers.buildBreadcrumbs` on the list and detail pages, `helpers.buildQueryString` (`allCategoriesUrl`), `pagination.create` and `res.render`. These are constant view strings or calls into code outside this file.
- `Object.assign(flagData, …)` copying the view fields onto the flag record: the model returns the view fields beside the flag instead.
- The plugin hooks. `filter:flags.validateFilters` and `filter:flags.validateSort` appear as the `validFilters` and `validSorts` parameters. `filter:post-queue.get` is a function from the visible posts to the listed posts. It also receives `req`, which the model does not pass. It is assumed to return non-null posts.
- `Promise.all` / `promiseParallel`: the reads run concurrently in the source but are independent, so they are taken as already-answered parameters.
- The compiled `src/controllers/mods.js`: it is the TypeScript compiler's output for the same handlers, with the same branches and constants, so the model follows `mods.ts` only.
- The module wiring `modsController.flags.list = …` on an object with no `flags` field: it would throw at load time. The three handlers are modelled as standalone methods.
- Query arrays hold strings only. Nested objects inside arrays are not modelled.
- JsText.NatToString: integers are unbounded. JavaScript's `String(n)` switches to exponent form from 1e21 (`"1e+21"`), which is not modelled.
- JsText.IntToString: the same exponent form for large magnitudes is not modelled.
- JsText.ParseInt: the value is an exact unbounded integer. JavaScript loses exactness above 2^53.
- JsText.ParseIntOfIntToString: this round trip holds for Dafny's unbounded integers. In JavaScript it fails from 1e21 on (exponent form) and may be inexact above 2^53.
- FlagList.CidStrings: category ids are unbounded integers written in plain decimal. The exponent form is not modelled.
- ShowQueue: page numbers and post counts are unbounded integers, so the float arithmetic of `Math.ceil` and `slice` is not modelled.
- PostQueue.Visible: a queued post's category id has one integer type. In the source, `selectedCids.includes(p.category.cid)` (line 289) compares strictly, while `moderatedCids.includes(Number(p.category.cid))` (line 292) converts first. The two tests can disagree when the cid is a string, and the model cannot express that.
- ListFlags: `res.locals.cids` is assumed unset when the handler starts, since no earlier middleware is modelled.
