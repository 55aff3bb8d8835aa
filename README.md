# eCommerce product analytics dashboard — a Dafny model

The dashboard is a Streamlit application that loads six tables
(products, website sessions, pageviews, orders, order items, refunds)
from a SQL Server database, lets the user narrow them with sidebar
filters, and renders nine analysis pages.  Beneath the charts every page
is tabular arithmetic: row filters, time buckets, rates, funnels,
attribution, pair counting and per-user features.  This project models
that arithmetic, the login session store, the access check, the loader's
type coercion and query text, and the role-based navigation, and proves
what each piece promises.

Representation:

- Each table is a `seq` of record datatypes (`Tables`); a missing value
  (SQL NULL, pandas NaN/NaT) is `Option.None`.  A timestamp is a `Stamp`
  holding its seconds since the epoch plus its calendar year, month and
  day of month; day ordinals and the weekday (Monday = 0) are derived
  from the seconds.
- Money and rates are `real`; a rate that pandas would make NaN is
  `None`.
- A group-by is a function of the rows and one key (`SumKey`,
  `CountKey`, the set of distinct ids carrying the key); the groups
  themselves are the distinct present keys (`Groups.KeysOf`), so a
  missing key forms no group.  The output row order of a group-by is
  not modelled except where the page sorts it.
- The sidebar filter record `F` (start, inclusive end, and optional
  string lists) is an input.
- Calls into libraries the model cannot see (`pd.to_datetime`,
  `pd.to_numeric`, `str()` of a cell, the SQL reader, the authenticator)
  are parameters, and "now" is a parameter.
- The session store of `utils/auth_state.py` is a class with a mutable
  `map` field; the imperative loops of the loader, the cross-sell pair
  enumeration, the per-product funnels, the Sankey link collection and
  the navigation link emission are methods proved against specification
  functions.

Modules: `Wrappers` (Option/Result/control flow), `Seqs` (generic
sequence facts: selection, deduplication, sums, sorting; its members are
building blocks and have no row of their own below), `Tables` (row
types, timestamps, filters), `Groups` (pandas merge/group-by shapes the
pages share), `Agg` (utils/agg.py), `Formatters`, `AuthState`, `Auth`,
`Db`, `App`, `HomePage`, `LoginPage`, and one module per analysis page:
`Traffic`, `ChannelPerformance`, `ChannelQuality`, `Attribution`,
`ConversionJourney`, `ProductJourney`, `ProductPerformance`,
`UserEngagement`, `CustomerInsights`.

## Model

| member | source | states |
|---|---|---|
| Agg.ApplyCategoricals | utils/agg.py:11-18 | the filter loop keeps exactly the rows every categorical filter admits; an empty list or a column the frame lacks admits every row, and a missing value is never in a list |
| Agg.Selected | utils/agg.py:8-18 | dropping null ids, the inclusive window and the categorical filters together are one selection by `KeptSession` |
| Agg.FilteredIsKept | utils/agg.py:8-18 | the three successive selections equal the single selection by `KeptSession` |
| Agg.FilterSessions | utils/agg.py:4-21 | every returned row is an input row with a non-null id inside start ≤ created_at ≤ end that passes the categorical filters; session ids are pairwise distinct; every kept id is represented; each returned row is the first kept row with its id |
| Agg.FilterPageviews | utils/agg.py:23-32 | each pageview keeps its multiplicity when it has a session id, lies in the inclusive window and passes the URL filter, and is dropped otherwise (no deduplication) |
| Agg.FilterOrders | utils/agg.py:34-39 | each order keeps its multiplicity when it lies in the inclusive window and is dropped otherwise; null session ids are not dropped and nothing is deduplicated |
| Agg.MergeProducts | utils/agg.py:46 | the left merge pairs each item with every product of its id, and an item with no matching product survives once with a missing name |
| Agg.NamedRows | utils/agg.py:46 | the rows of one item against its matching products are one row per product, each carrying that product's name |
| Agg.FilterOrderItems | utils/agg.py:41-50 | every row comes from an item in the window; with a non-empty product list only listed names survive; every in-window item/product match (and, without a product list, every unmatched item) appears |
| Agg.BucketOf | utils/agg.py:58-68 | Weekly gives the Monday on or before the date, at most six days earlier; Monthly the first day of the month; Yearly the year; Daily and any other granularity the date itself |
| Agg.MondayOnOrBefore | utils/agg.py:61 | subtracting a day's weekday lands on a Monday |
| Agg.Rollup | utils/agg.py:52-69 | the output is the input rows with a parseable timestamp, in order, each with the bucket of its timestamp |
| Agg.Ratio | utils/agg.py:80-83 | a ratio is NaN exactly when the denominator is 0, otherwise the numerator divided by the denominator, in [0,1] when the numerator is at most the denominator |
| Agg.Bounced | utils/agg.py:82 | the bounced sessions are input sessions with exactly one pageview |
| Agg.BounceRate | utils/agg.py:71-83 | NaN exactly when there are no sessions, otherwise the number of bounced session rows divided by the number of session rows, in [0,1] |
| Agg.NoPageviewsNoBounce | utils/agg.py:78 | sessions with no pageviews are filled with count 0 and are not bounces, so the rate is 0 |
| Agg.NoneBounced | utils/agg.py:78-82 | with no pageviews no session bounces |
| Agg.AllSingleAllBounce | utils/agg.py:82-83 | when every session has exactly one pageview the rate is 1 |
| Agg.AllBounced | utils/agg.py:82 | when every session has exactly one pageview every session is a bounce |
| Agg.SessionIds | utils/agg.py:86 | the set of session ids is exactly the ids of the sessions |
| Agg.OrderedSessionIds | utils/agg.py:87 | the ordered set is exactly the non-null session ids of the orders |
| Agg.ConversionRate | utils/agg.py:85-90 | NaN exactly when there are no sessions, otherwise the number of distinct session ids that are also non-null ordered session ids divided by the number of distinct session ids, in [0,1] |
| Agg.ConversionIgnoresOtherOrders | utils/agg.py:88 | orders from sessions outside the session set never change the rate |
| Agg.IdsAtMostRows | utils/agg.py:89 | the number of distinct session ids is at most the number of rows |
| Agg.DistinctIdsCard | utils/agg.py:89 | on deduplicated sessions the number of distinct ids is the number of rows |
| Agg.PerSession | utils/agg.py:105-107 | the whole net revenue divided by a segment's size: NaN exactly for an empty segment, and the value times the size is the net revenue |
| Agg.RevenueMetricsOf | utils/agg.py:92-116 | gross is the price sum (0 without the column), refunds the refund sum (0 without the column), net = gross − refunds, and each per-session figure is net over the size of its segment |
| Agg.RevenueWithoutRepeatColumn | utils/agg.py:100-102 | without is_repeat_session every session is new and the repeat figure is NaN |
| Agg.SegmentsSplitSessions | utils/agg.py:98-99 | new and repeat sessions together are all sessions except those whose flag is missing |
| Agg.GsearchSessions | utils/agg.py:119 | exactly the sessions whose utm_source is "gsearch" |
| Agg.GsearchConversion | utils/agg.py:118-123 | NaN exactly when there are no gsearch sessions, otherwise in [0,1] |
| Agg.GsearchIsConversionOfGsearch | utils/agg.py:118-123 | with distinct session ids the gsearch figure is the conversion rate of the gsearch sessions |
| Tables.Weekday | utils/agg.py:61 | the weekday of a day ordinal is one of the seven days, Monday being 0 |
| Agg.Histogram | utils/agg.py:130-131 | every group is a listed key with a positive count equal to the number of rows with that key |
| Agg.HistogramTotal | utils/agg.py:130-131 | the group counts add up to the number of rows whose key is listed |
| Agg.SessionVolumeConserved | utils/agg.py:125-135 | the hour groups and the weekday groups each add up to the number of sessions with a timestamp |
| Formatters.FormatNumber | utils/formatters.py:3-12 | "—" exactly for a missing value; "M" with one decimal of n/10⁶ at \|n\| ≥ 1,000,000, "K" with one decimal of n/10³ at \|n\| ≥ 1,000, otherwise no suffix and no decimals |
| Formatters.FormatCurrency | utils/formatters.py:14-18 | "—" exactly for a missing value, otherwise "$", thousands separators and 0 decimals |
| Formatters.FormatCurrencyPrecise | utils/formatters.py:20-24 | "—" exactly for a missing value, otherwise "$", thousands separators and 2 decimals |
| Formatters.FormatPercent | utils/formatters.py:26-36 | "—" exactly for a missing value; p > 1 is printed unchanged with "%", p ≤ 1 is multiplied by 100, always 2 decimals |
| Formatters.PercentScaleJump | utils/formatters.py:34-36 | 1.0 prints as 100.00% while 1.5 prints as 1.50% |
| Formatters.FormatKm | utils/formatters.py:38-49 | "0" exactly when float() fails; "M" at ≥ 10⁶, "K" at ≥ 10,000 (not 1,000), otherwise the value with separators and 0 decimals; no absolute value is taken |
| Formatters.KmNegativesUnsuffixed | utils/formatters.py:44-49 | a negative value never gets a suffix |
| Formatters.KmThresholdDiffers | utils/formatters.py:9-10 | between 1,000 and 10,000 format_number says "K" while format_km does not |
| AuthState.AddMissing | utils/auth_state.py:15-17 | the insertion loop adds every listed key that is missing with its default and never overwrites a present key |
| AuthState.WithDefaults | utils/auth_state.py:5-17 | afterwards all seven default keys are present, existing values are untouched, and a new key holds its default (activity time = now, nav_active = False, others None) |
| AuthState.AddMissingStep | utils/auth_state.py:15-17 | one loop round inserts the key's default only when the key is absent |
| AuthState.DefaultsKeepValid | utils/auth_state.py:11 | inserting defaults keeps the activity time a number or None |
| AuthState.WithDefaultsIdempotent | utils/auth_state.py:15-17 | calling ensure_session_keys twice equals calling it once, whatever the second clock reading |
| AuthState.SessionState.EnsureSessionKeys | utils/auth_state.py:5-17 | the new store is the old store completed with the defaults |
| AuthState.SessionState.MarkActivity | utils/auth_state.py:19-20 | last_activity_ts becomes now and nothing else changes |
| AuthState.SessionState.IsSessionExpired | utils/auth_state.py:47-52 | a missing or None timestamp stores now and answers False; otherwise the store is unchanged and the answer is now − ts > timeout, strictly |
| AuthState.SessionState.LogoutAndRedirect | utils/auth_state.py:54-126 | an exception from the authenticator's logout is swallowed; afterwards the store holds exactly nav_active = False and nav = target, and the script reruns |
| AuthState.SessionState.CheckTimeout | utils/auth_state.py:42-44 | the threshold is minutes × 60 seconds; the session is logged out to "Login" exactly when it has expired, and otherwise only the timestamp bookkeeping of is_session_expired happens |
| Auth.Basename | utils/auth.py:7-8 | the basename is the suffix of the path after its last "/", and contains no "/" |
| Auth.BasenameSnoc | utils/auth.py:7-8 | appending a non-slash character to a path appends it to the basename |
| Auth.Basenames | utils/auth.py:7 | the comprehension maps each allowed page to its basename, position by position |
| Auth.EnforceAccess | utils/auth.py:4-13 | execution continues exactly when some allowed page has the same basename as the current file, and stops otherwise |
| Auth.EmptyListDenies | utils/auth.py:7-10 | an empty allowed list denies every page |
| Auth.BasenameIgnoresDirectory | utils/auth.py:7-8 | the basename of "dir/x" is "x", and a bare file name is its own basename |
| Auth.DirectoriesIgnored | utils/auth.py:7-8 | "dir/x.py" allows "/other/dir/x.py": directory prefixes are ignored on both sides |
| Db.Strip | utils/db.py:139 | the stripped text is a slice `s[i..j]` of the input with only whitespace before `i` and after `j` (the full `str.isspace` set, U+3000 included), and it neither starts nor ends with whitespace |
| Db.StripIdempotent | utils/db.py:139 | stripping twice equals stripping once |
| Db.StripPadding | utils/db.py:130-139 | text without outer whitespace is unchanged by strip, and padding around it is removed |
| Db.Lower | utils/db.py:130 | lower-casing maps A–Z to a–z and keeps every other character |
| Db.BoolToken | utils/db.py:129-131 | "1", "true", "t", "yes", "y" give True, "0", "false", "f", "no", "n" give False, and every other token gives NA |
| Db.BoolCell | utils/db.py:130-131 | a missing cell stays missing; any other cell becomes True or False exactly when its stripped, lower-cased text is a true or false token, and missing otherwise |
| Db.BoolTokenPadding | utils/db.py:130-131 | surrounding spaces do not change a boolean cell |
| Db.WideBlanks | utils/db.py:137-140 | "NULL" followed by an ideographic space is cleaned to a missing value, and "yes" followed by an em space coerces to True |
| Db.Lookup | utils/db.py:117 | a table key without an entry gets no hints; a key with entries gets the hints of its first entry |
| Db.DateCells | utils/db.py:115 | one parsed cell per input cell, each the coerced date of that cell (missing where parsing fails) |
| Db.ParseDate | utils/db.py:113-115 | one round: a column the frame lacks leaves it unchanged; a present column becomes its parsed cells typed as dates; every other column is unchanged |
| Db.ParseDates | utils/db.py:112-115 | the date loop keeps the column names and set; a present column listed once becomes its `to_datetime(errors="coerce")` cells typed as dates, and an unlisted column is unchanged |
| Db.ApplyDtype | utils/db.py:118-134 | a hinted column the frame lacks is skipped, a conversion that raises leaves the frame unchanged, a conversion that succeeds replaces the column by the converted one, and no other column changes |
| Db.Convert | utils/db.py:121-134 | "string"/"str" give string cells, "float"/"numeric" the coerced numbers, "boolean"/"bool" the token map, "Int64" the coerced numbers unless a cell has a fractional part, which raises; that is the only error, and an unknown hint leaves the column as it is |
| Db.UnhintedColumnsUnchanged | utils/db.py:117-134 | a column no hint names leaves the hint loop unchanged |
| Db.CleanCell | utils/db.py:136-141 | a text cell becomes its stripped text, or NA when that is exactly "", "NA" or "NULL" |
| Db.CleanCellIdempotent | utils/db.py:136-141 | cleaning a cleaned cell changes nothing |
| Db.CleanText | utils/db.py:136-141 | the null match is exact and case-sensitive ("null" survives), and padding is stripped before matching |
| Db.TextColumns | utils/db.py:136 | every cleaned column is an object or string column of the frame |
| Db.HintsApplied | utils/db.py:110-142 | _apply_hints keeps the frame's columns and their order; after the date and dtype passes, every object or string column becomes the cleaned cells typed as string, and every other column is as those passes left it |
| Db.Typed | utils/db.py:112-134 | the date and dtype passes keep the frame's columns and their order |
| Db.CleanColumn | utils/db.py:137-141 | one pass of the text loop replaces a present column by its cleaned cells typed as string and leaves every other column as it was |
| Db.CleanColumns | utils/db.py:136-141 | every listed present column ends up as its cleaned cells typed as string (listing it twice changes nothing), and every unlisted column is unchanged |
| Db.CleanCellsIdempotent | utils/db.py:136-141 | cleaning a column twice equals cleaning it once |
| Db.ParseDateColumns | utils/db.py:112-115 | the date loop computes the fold of the date parse over the table's date columns |
| Db.ApplyDtypeHints | utils/db.py:117-134 | the hint loop computes the fold of `ApplyDtype` over the table's hints |
| Db.CleanTextColumns | utils/db.py:136-141 | the cleaning loop computes the fold of `CleanColumn` over the text columns |
| Db.ApplyHints | utils/db.py:110-142 | the three loops compute `HintsApplied` and keep the frame's columns |
| Db.Query | utils/db.py:149-152 | an unknown table key raises; otherwise the query is "SELECT * FROM schema.Table", with " WHERE clause" appended only for a non-empty clause |
| Db.QueryExtendsPlain | utils/db.py:150-152 | the filtered query is the plain query followed by " WHERE " and the clause |
| Db.LoadedFrom | utils/db.py:154-161 | without a chunk size the result is the hinted frame; with one it is the hinted chunks, one per chunk, so no chunks give an empty result |
| Db.LoadedTable | utils/db.py:146-161 | load_table raises exactly for an unknown key, otherwise reads its query |
| Db.HintChunks | utils/db.py:155-157 | the chunk loop yields one hinted part per chunk, in order |
| Db.ReadTable | utils/db.py:154-161 | the read computes `LoadedFrom` |
| Db.LoadTable | utils/db.py:146-161 | the method computes `LoadedTable` |
| Db.LoadedTablesFails | utils/db.py:167-169 | load_tables raises exactly when some requested key is unknown |
| Db.LoadedTablesKeys | utils/db.py:167-170 | the returned dictionary's key set is exactly the requested keys |
| Db.LoadedTablesEntries | utils/db.py:169 | each entry is the table its key loads |
| Db.LoadedTablesStep | utils/db.py:168-169 | one loop round adds the key's table or raises its error |
| Db.LoadTables | utils/db.py:164-170 | the loop computes `LoadedTables` |
| Db.LoadedTablesPropagatesError | utils/db.py:168-169 | once a key raises, the whole call raises that error |
| App.AverageOrderValue | app.py:298 | 0 without orders; otherwise the value times the order count is the revenue |
| App.RepeatBuyers | app.py:299 | repeat buyers are ordering users |
| App.RepeatRate | app.py:299 | the users with two or more distinct orders over the users with an order; NaN exactly without orders, otherwise in [0,1] |
| App.RepeatBuyerIff | app.py:299 | a user is a repeat buyer exactly when two of their orders have different order ids (nunique ≥ 2) |
| App.KpisOf | app.py:294-299 | sessions and orders are row counts, revenue is the price sum, AOV is revenue over orders (0 without orders), conversion is the shared conversion rate and repeat rate the repeat-buyer share; conversion is NaN exactly without sessions and repeat rate exactly without orders, both in [0,1] |
| App.HomeOf | app.py:302-386 | admin, ceo, website_manager and marketing_manager get their homepage; every other role gets the "no configured homepage" error |
| App.EngagementIsConversion | app.py:304-383 | the marketing homepage's engagement tile shows the conversion rate, and only the admin homepage shows the order count |
| App.StatusScreen | app.py:439-443 | a truthy status shows the dashboard, exactly False shows "incorrect", None shows the prompt, and another falsy value shows nothing |
| App.AllowedPages | app.py:393 | an unknown role gets an empty page list |
| App.RolesWithinAdmin | app.py:231-262 | admin lists all nine pages and every role's list is a subset of admin's |
| App.PathContainsName | app.py:395-412 | each dashboard path contains the substring its rule tests for |
| App.FirstLabel | app.py:395-412 | a label, when there is one, is one of the rules' labels |
| App.FirstLabelFirstMatch | app.py:395-412 | the elif chain gives no label exactly when no rule's substring occurs, and otherwise the label of the first rule that matches |
| App.Links | app.py:394-412 | the loop emits at most one link per page |
| App.LinksOneEach | app.py:394-412 | when every page matches a rule, each page yields exactly one link, in list order, labelled by its first matching rule |
| App.Labelled | app.py:395-412 | a page containing some rule's substring gets a label |
| App.AdminPagesLabelled | app.py:395-412 | every configured dashboard path gets a label |
| App.RoleLinksOneEach | app.py:393-412 | every role's allowed pages yield exactly one link each, in role-list order |
| App.EmitLinks | app.py:394-434 | each of the two loops emits exactly `Links` of the allowed pages |
| App.Render | app.py:265-443 | a status that is not truthy shows only its screen; a truthy one shows the KPIs, the role's homepage, and the same link list on the page and in the sidebar; an unknown username raises |
| App.UnknownRoleNoLinks | app.py:384-393 | an unconfigured role gets the error homepage, no tiles and no links |
| HomePage.AllowedPages | pages/Home.py:172 | an unknown role gets an empty page list |
| HomePage.RolesWithinAdmin | pages/Home.py:12-44 | admin lists all nine pages and every role's list is a subset of admin's |
| HomePage.Navigation | pages/Home.py:173 | each navigation entry is an allowed page that PAGES_MAP knows, with its PAGES_MAP title, and there are at most as many entries as allowed pages |
| HomePage.NavigationComplete | pages/Home.py:173 | every allowed page that PAGES_MAP knows is in the navigation |
| HomePage.NavigationAppend | pages/Home.py:173 | the filter keeps list order: it distributes over concatenation |
| HomePage.NavigationAll | pages/Home.py:173 | when PAGES_MAP knows every allowed page, the navigation is the allowed list itself, entry by entry |
| HomePage.RoleNavigation | pages/Home.py:142-173 | every role's navigation is its allowed list in its original order, and an unknown role's navigation is empty |
| HomePage.Guarded | pages/Home.py:50-52 | after the guards all default keys are present, the activity time is now, and every other existing value is unchanged |
| HomePage.Guard | pages/Home.py:50-52 | ensure_session_keys, then check_timeout with 3 minutes, then mark_activity: an expired session is logged out, otherwise the store is `Guarded` |
| HomePage.Render | pages/Home.py:46-176 | the guards run first; a session that is not authenticated, and a click on Logout, leave the store logged out before any role lookup; otherwise the role is looked up (an unknown user raises) and the homepage, KPIs and role navigation are shown |
| LoginPage.Prepared | pages/Login.py:8-15 | after the helpers the store has no "nav", has the activity time now and a status, and keeps every other existing value |
| LoginPage.Prepare | pages/Login.py:8-15 | the helpers run in order; a timed-out session is logged out, otherwise "nav" is removed if present and left alone otherwise |
| LoginPage.Render | pages/Login.py:6-48 | with neither an authenticator nor a config the page stops before calling login; otherwise a truthy status resets nav_active to False, exactly False shows the credentials error, and any other falsy value shows the prompt; as the login widget writes only the status, name and username, the stored activity time stays a number or None |
| Traffic.RepeatSessionRate | pages/1_Traffic_and_Acquisition.py:40 | None exactly without sessions, otherwise the number of sessions flagged True divided by the number of sessions, in [0,1] (a missing flag is not True) |
| Traffic.WhereFull | pages/1_Traffic_and_Acquisition.py:40 | a selection keeps every row exactly when every row satisfies its condition |
| Traffic.RepeatRateOne | pages/1_Traffic_and_Acquisition.py:40 | the repeat rate is 1 exactly when every session is flagged as a repeat |
| Traffic.ClassifyCampaign | pages/1_Traffic_and_Acquisition.py:139-148 | a missing campaign is Other; on the lower-cased campaign, Direct/Brand exactly when it contains "brand" or "direct", Broad/Nonbrand exactly when it contains neither but contains "nonbrand" or "broad", Other otherwise |
| Traffic.ClassifyCampaignIntended | pages/1_Traffic_and_Acquisition.py:139-148 | corrected: a missing campaign is Other; Broad/Nonbrand exactly when the lower-cased campaign contains "nonbrand", or contains "broad" but neither "brand" nor "direct"; Direct/Brand exactly when it contains "brand" or "direct" but not "nonbrand" |
| Traffic.NonbrandHoldsBrand | pages/1_Traffic_and_Acquisition.py:143-145 | any text containing "nonbrand" contains "brand" |
| Traffic.NonbrandIsDirect | pages/1_Traffic_and_Acquisition.py:143-146 | as written, every nonbrand campaign is classified Direct/Brand, so the nonbrand test can never fire |
| Traffic.IntendedClassification | pages/1_Traffic_and_Acquisition.py:139-148 | the corrected classifier sends nonbrand campaigns to Broad/Nonbrand and agrees with the written one on every other campaign |
| Traffic.MatchedTypes | pages/1_Traffic_and_Acquisition.py:154 | the types an order picks up in the left merge are exactly those of the sessions with its session id |
| Traffic.Typed | pages/1_Traffic_and_Acquisition.py:154 | one merged row per matched type, each carrying the order |
| Traffic.OrdersTyped | pages/1_Traffic_and_Acquisition.py:154 | every typed row comes from an order and a session with its id and that session's type, and every such pair appears |
| Traffic.SummaryFor | pages/1_Traffic_and_Acquisition.py:152-161 | a type's sessions are its distinct session ids, its orders the distinct ids of the orders whose session has the type, and its revenue the price sum of the merged rows of the type |
| Traffic.TypeOrderIdsReached | pages/1_Traffic_and_Acquisition.py:154-156 | after the left merge, the order ids of a type are exactly those of the orders whose session has that type |
| Traffic.SummaryMeaning | pages/1_Traffic_and_Acquisition.py:155-161 | conversion = distinct orders reaching the type / distinct sessions of the type, and a type no order reaches has orders and revenue filled to 0 |
| Traffic.NoRowsOfType | pages/1_Traffic_and_Acquisition.py:157-160 | a type with no merged rows has revenue 0 |
| Traffic.PresentTypes | pages/1_Traffic_and_Acquisition.py:152 | the summary has a row exactly for the types some session has |
| Traffic.Summaries | pages/1_Traffic_and_Acquisition.py:152-161 | one summary row per present type, in order |
| Traffic.TrafficSummary | pages/1_Traffic_and_Acquisition.py:152-161 | every summary row is the row computed for its type, and every row's type is the type of some session |
| Traffic.SafeValue | pages/1_Traffic_and_Acquisition.py:163-165 | safe_value returns the value of the first row of the type, and the default when no row has the type |
| Traffic.RevenueGap | pages/1_Traffic_and_Acquisition.py:169-171 | the gap is the first Direct/Brand row's revenue minus the first Broad/Nonbrand row's, a missing type counting as 0 |
| Traffic.PresentTypesDistinct | pages/1_Traffic_and_Acquisition.py:152 | the summary has at most one row per type |
| Traffic.SafeValueOfPresent | pages/1_Traffic_and_Acquisition.py:163-170 | read through safe_value, a type some session has gives its own summary figure |
| Traffic.PresentIndex | pages/1_Traffic_and_Acquisition.py:152-165 | a present type has a first row in the summary |
| Traffic.SafeValueOfAbsent | pages/1_Traffic_and_Acquisition.py:163-170 | a type no session has reads as the default 0.0 |
| Traffic.CumCount | pages/1_Traffic_and_Acquisition.py:105 | cumcount gives one number per row |
| Traffic.CumCountAt | pages/1_Traffic_and_Acquisition.py:105 | a row's number is how many earlier rows share its year |
| Traffic.CountInRun | pages/1_Traffic_and_Acquisition.py:105 | within a run of one year that starts a year, the count before each row is its offset |
| Traffic.RowNumberInYear | pages/1_Traffic_and_Acquisition.py:104-105 | with the rows ordered by year, the row m places after the first row of its year is number m |
| Traffic.Years | pages/1_Traffic_and_Acquisition.py:103 | the year column, row by row |
| Traffic.LabelRows | pages/1_Traffic_and_Acquisition.py:106-107 | each row's label is format_km of its count when its number is a multiple of 3, and none otherwise |
| Traffic.MonthLabels | pages/1_Traffic_and_Acquisition.py:105-107 | one label slot per monthly row |
| Traffic.SortedYears | pages/1_Traffic_and_Acquisition.py:104 | rows grouped by (year, bucket) come with years in order |
| Traffic.LabelOfSome | pages/1_Traffic_and_Acquisition.py:107 | a row is labelled exactly when its number is ≡ 0 mod 3 |
| Traffic.YearsAt | pages/1_Traffic_and_Acquisition.py:103-105 | the year column preserves where a year starts and which rows share it |
| Traffic.LabelAt | pages/1_Traffic_and_Acquisition.py:105-107 | each label is computed from the row's cumcount number |
| Traffic.EveryThirdMonth | pages/1_Traffic_and_Acquisition.py:102-107 | the month m places after the first month of its year is labelled exactly when m ≡ 0 mod 3 |
| ChannelPerformance.Sources | pages/2_Channel_Performance_and_Trends.py:37 | the listed sources are exactly the present utm_source values of the sessions |
| ChannelPerformance.Channels | pages/2_Channel_Performance_and_Trends.py:37-49 | the portfolio's channels are the present sources, sorted and distinct (groupby drops a missing source) |
| ChannelPerformance.Rows | pages/2_Channel_Performance_and_Trends.py:49 | one row per channel, in channel order |
| ChannelPerformance.RowsAt | pages/2_Channel_Performance_and_Trends.py:49 | the row at a position is the row of the channel at that position |
| ChannelPerformance.RowFor | pages/2_Channel_Performance_and_Trends.py:35-48 | a channel's row holds its distinct sessions, distinct orders and revenue, conversion = orders / sessions (missing exactly without sessions) and AOV times orders = revenue (missing exactly without orders) |
| ChannelPerformance.Portfolio | pages/2_Channel_Performance_and_Trends.py:37-50 | one row per source some session has, in strictly increasing order, and no other rows |
| ChannelPerformance.RowSources | pages/2_Channel_Performance_and_Trends.py:49 | rows listing the channels in order name exactly those channels |
| ChannelPerformance.PortfolioAt | pages/2_Channel_Performance_and_Trends.py:37-50 | each portfolio row is the row computed for its channel |
| ChannelPerformance.RowMeaning | pages/2_Channel_Performance_and_Trends.py:37-50 | a row holds the distinct session ids of its source, the distinct order ids and summed prices of the orders the merge tagged with it, conversion = orders / sessions and AOV = revenue / orders, each NaN exactly when its denominator is 0 |
| ChannelPerformance.ChannelWithoutOrders | pages/2_Channel_Performance_and_Trends.py:49 | a channel with sessions but no orders has orders 0 and revenue 0 after fillna, and an AOV of 0/0 |
| ChannelPerformance.ChannelHasSessions | pages/2_Channel_Performance_and_Trends.py:37-50 | with non-null session ids every channel has at least one session, so its conversion rate is defined |
| ChannelPerformance.Conversions | pages/2_Channel_Performance_and_Trends.py:122 | the conversion column, row by row |
| ChannelPerformance.AverageOrderValues | pages/2_Channel_Performance_and_Trends.py:124 | the AOV column, row by row |
| ChannelPerformance.RowsRevenue | pages/2_Channel_Performance_and_Trends.py:123 | the revenue column sums to the merged revenue over the listed channels |
| ChannelPerformance.TotalRevenue | pages/2_Channel_Performance_and_Trends.py:118-125 | the totals row's revenue is the revenue of every order whose session has a source |
| ChannelPerformance.Totals | pages/2_Channel_Performance_and_Trends.py:118-125 | the totals row sums sessions, orders and revenue, and takes conversion and AOV as the unweighted mean of the channels' present values, missing exactly when no channel has one |
| ChannelPerformance.MeanRateIsNotPooledRate | pages/2_Channel_Performance_and_Trends.py:118-125 | the totals row sums sessions and orders but takes the unweighted mean of the rates: 1/1 and 0/3 show 50% where orders over sessions is 25% |
| ChannelPerformance.TotalAverageWithinChannels | pages/2_Channel_Performance_and_Trends.py:124 | the mean AOV lies between the smallest and largest channel AOV, and is NaN exactly when every channel's AOV is NaN |
| ChannelPerformance.MonthIsFirstDay | pages/2_Channel_Performance_and_Trends.py:135-136 | the month bucket is the first day of the created_at month |
| ChannelPerformance.SessionsTrendCounts | pages/2_Channel_Performance_and_Trends.py:138 | a (source, month) trend value counts the sessions of that source in that month |
| ChannelPerformance.OrdersTrend | pages/2_Channel_Performance_and_Trends.py:139-140 | a (channel, month) order count is 0 exactly when no merged order row falls in that group |
| ChannelPerformance.RevenueTrend | pages/2_Channel_Performance_and_Trends.py:141-142 | a (channel, month) revenue is 0 for an absent group and never negative when no price is |
| ChannelQuality.BounceFlag | pages/3_Channel_Quality_Metrics.py:22-31 | is_bounce is 0 or 1, and 1 exactly when the session has an id and exactly one pageview in the unfiltered pageviews |
| ChannelQuality.Bounces | pages/3_Channel_Quality_Metrics.py:34-36 | a group's bounces are at most its session rows, and 0 when none of its sessions has an id with exactly one pageview |
| ChannelQuality.UnviewedSessionNoBounce | pages/3_Channel_Quality_Metrics.py:30-31 | a session with no pageviews is filled with is_bounce = 0 |
| ChannelQuality.Clip | pages/3_Channel_Quality_Metrics.py:39-55 | clip(0, 1) lands in [0,1], leaves values in [0,1] alone and sends values above 1 to 1 |
| ChannelQuality.MonthRowFor | pages/3_Channel_Quality_Metrics.py:34-55 | a month row holds distinct sessions, bounces, distinct orders and revenue; bounce rate = bounces / sessions and conversion = orders / sessions, each clipped to [0,1]; AOV is revenue over orders, 0 without orders |
| ChannelQuality.Kept | pages/3_Channel_Quality_Metrics.py:38-56 | every kept group is a listed key with sessions > 0, and both its rates lie in [0,1] |
| ChannelQuality.CharTrends | pages/3_Channel_Quality_Metrics.py:34-56 | every row of char_trends has sessions > 0 and a bounce rate and conversion rate in [0,1] |
| ChannelQuality.KeptExactly | pages/3_Channel_Quality_Metrics.py:38 | a listed group is kept exactly when it has at least one session id, with the row computed for it |
| ChannelQuality.CharTrendsGroups | pages/3_Channel_Quality_Metrics.py:34-52 | char_trends has a row for a (source, month) exactly when that group has a session id, and that row is the one computed for the group |
| ChannelQuality.GroupWithoutOrders | pages/3_Channel_Quality_Metrics.py:52-56 | a group no order reaches gets orders, revenue and AOV filled to 0 and conversion 0 |
| ChannelQuality.BouncesAtMostIdRows | pages/3_Channel_Quality_Metrics.py:34-36 | a group's bounces are at most its session rows with an id |
| ChannelQuality.IdRowsAreIds | pages/3_Channel_Quality_Metrics.py:35 | with unique session ids the nunique count equals the number of id rows |
| ChannelQuality.FirstIdFresh | pages/3_Channel_Quality_Metrics.py:35 | with unique ids the first session's id is not among the rest |
| ChannelQuality.BounceRateUnclipped | pages/3_Channel_Quality_Metrics.py:36-39 | with unique session ids bounces ≤ sessions, so the clip leaves bounce_rate = bounces / sessions |
| ChannelQuality.ConversionUnclipped | pages/3_Channel_Quality_Metrics.py:54-56 | when a group has no more orders than sessions, conversion_rate is orders / sessions unchanged by the clip |
| ChannelQuality.UnitFraction | pages/3_Channel_Quality_Metrics.py:39 | a fraction a/b with a ≤ b lies in [0,1] |
| Attribution.UserRows | pages/4_Attribution_Analysis.py:36 | a user's group holds exactly that user's sessions and keeps the sort by created_at |
| Attribution.SourceColumn | pages/4_Attribution_Analysis.py:36 | the utm_source column of a group, row by row |
| Attribution.SortedMembers | pages/4_Attribution_Analysis.py:36 | sorting by created_at keeps exactly the same sessions |
| Attribution.ColumnHasSource | pages/4_Attribution_Analysis.py:36 | the column has a non-missing entry exactly when some session of the group has a source |
| Attribution.EarliestWithSource | pages/4_Attribution_Analysis.py:36 | in a sorted group, the first row with a source is no later than any session with a source |
| Attribution.LatestWithSource | pages/4_Attribution_Analysis.py:41 | in a sorted group, the last row with a source is no earlier than any session with a source |
| Attribution.FirstOfSorted | pages/4_Attribution_Analysis.py:36 | first() of a sorted group is missing exactly when no session has a source, and otherwise is the source of an earliest session with one |
| Attribution.LastOfSorted | pages/4_Attribution_Analysis.py:41 | last() of a sorted group is missing exactly when no session has a source, and otherwise is the source of a latest session with one |
| Attribution.FirstTouchIsEarliest | pages/4_Attribution_Analysis.py:36-37 | a user's first-touch source is the first non-missing source of their earliest sessions, missing exactly when none of their sessions has one |
| Attribution.LastTouchIsLatest | pages/4_Attribution_Analysis.py:41-42 | a user's last-touch source is the last non-missing source of their latest sessions, missing exactly when none of their sessions has one |
| Attribution.PairsOf | pages/4_Attribution_Analysis.py:46 | a session pairs with exactly the orders of its user |
| Attribution.Pairs | pages/4_Attribution_Analysis.py:46 | the inner merge on user_id is exactly every session with every order of its user |
| Attribution.SumKeyConstant | pages/4_Attribution_Analysis.py:47-48 | summing a constant share over a group gives the group size times the share |
| Attribution.LinearSharesAddUp | pages/4_Attribution_Analysis.py:46-48 | with unique order ids, an order whose user has a filtered session has shares summing to exactly its price |
| Attribution.SharesOfOneOrder | pages/4_Attribution_Analysis.py:47-48 | the rev_share rows of one order sum to its price |
| Attribution.EqualParts | pages/4_Attribution_Analysis.py:48 | n equal parts of x add back to x |
| Attribution.KeyPresent | pages/4_Attribution_Analysis.py:47 | a row's own key has a positive count |
| Attribution.OrderWithoutSessions | pages/4_Attribution_Analysis.py:46 | an order whose user has no filtered session gets no linear share at all |
| Attribution.Keyed | pages/4_Attribution_Analysis.py:38-49 | every present source of the rows is listed |
| Attribution.Credited | pages/4_Attribution_Analysis.py:36-51 | the outer merge lists, in increasing order, exactly the sources of some session of a user who ordered |
| Attribution.RowOf | pages/4_Attribution_Analysis.py:38-51 | a source's row holds its first-touch, last-touch and linear revenue and their total, all 0 for a source no session has |
| Attribution.RowsOf | pages/4_Attribution_Analysis.py:51 | one attribution row per credited source |
| Attribution.ColumnSums | pages/4_Attribution_Analysis.py:97-101 | each model's column sums to its revenue over the listed sources, and Total Revenue = First Touch + Last Touch + Linear |
| Attribution.Attrib | pages/4_Attribution_Analysis.py:36-51 | the table has one row per credited source, in increasing order, each row being that source's RowOf |
| Attribution.TouchRevenue | pages/4_Attribution_Analysis.py:38-43 | a source that is no order's first (or last) touch gets revenue 0 |
| Attribution.LinearRevenue | pages/4_Attribution_Analysis.py:49-51 | a source no session has gets linear revenue 0 |
| Attribution.ModelsConserveRevenue | pages/4_Attribution_Analysis.py:36-51 | first and last touch each hand out every order's full price except orders whose user has no source, linear hands out every share except those of sessions without a source, and the total column adds the three |
| Attribution.UncreditedSource | pages/4_Attribution_Analysis.py:51 | a source absent under every model gets 0 from each (fillna(0)) |
| Attribution.TopIndex | pages/4_Attribution_Analysis.py:56-59 | the top row of a model has the largest value, and no earlier row ties it |
| ConversionJourney.WindowRefunds | pages/5_Conversion_Journey.py:33 | the kept refunds are exactly those with start ≤ created_at ≤ end |
| ConversionJourney.GsearchTrendTotal | pages/5_Conversion_Journey.py:58-60 | over the buckets that occur, the trend counts every gsearch session with a timestamp exactly once |
| ConversionJourney.RolledRow | pages/5_Conversion_Journey.py:59 | each rolled row is a session with a timestamp, bucketed by that timestamp |
| ConversionJourney.PageviewsOf | pages/5_Conversion_Journey.py:93 | isin keeps exactly the pageviews whose session id is listed |
| ConversionJourney.FunnelPageviews | pages/5_Conversion_Journey.py:92-93 | the funnel uses exactly the pageviews of gsearch nonbrand sessions |
| ConversionJourney.ReachedMeans | pages/5_Conversion_Journey.py:95-108 | a session is in the k-th intersection exactly when it has a pageview at each of the first k+1 steps; the product step matches the prefix "/the-" and billing either "/billing" or "/billing-2" |
| ConversionJourney.FunnelCounts | pages/5_Conversion_Journey.py:101-110 | one count per funnel step |
| ConversionJourney.ReachedShrinks | pages/5_Conversion_Journey.py:104-108 | a later intersection is a subset of an earlier one |
| ConversionJourney.FunnelNonIncreasing | pages/5_Conversion_Journey.py:101-110 | the nested-intersection funnel counts never increase from step to step |
| ConversionJourney.ConvertedSessions | pages/5_Conversion_Journey.py:126-128 | the converted sessions of a variant are among the sessions that saw it |
| ConversionJourney.VariantRate | pages/5_Conversion_Journey.py:122-129 | as written, a variant's rate is its converted sessions over its sessions, in (0,1], and NaN exactly when none of its sessions converted |
| ConversionJourney.UnconvertedVariantHasNoRate | pages/5_Conversion_Journey.py:128-129 | a variant seen by one session that did not order gets no rate instead of 0% |
| ConversionJourney.VariantRateIntended | pages/5_Conversion_Journey.py:122-129 | the corrected rate is the variant's converted sessions over its sessions, in [0,1], missing only when no session saw the variant |
| ConversionJourney.IntendedVariantRate | pages/5_Conversion_Journey.py:129 | the corrected rate agrees with the written one whenever a session converted, and is 0 for a variant seen but never converted |
| ConversionJourney.GroupedCounts | pages/5_Conversion_Journey.py:157-160 | one count per group, in group order, each at most the number of distinct sessions |
| ConversionJourney.GroupedCountsAt | pages/5_Conversion_Journey.py:158-160 | each group's count is the distinct sessions with a pageview of one of its URLs |
| ConversionJourney.CountSteps | pages/5_Conversion_Journey.py:157-160 | the loop appends exactly the grouped counts |
| ConversionJourney.GroupedFunnelNotMonotone | pages/5_Conversion_Journey.py:157-160 | each group is counted independently, so a later step can exceed an earlier one |
| ConversionJourney.SinglePageview | pages/5_Conversion_Journey.py:159 | one pageview reaches a group exactly when its URL is listed |
| ConversionJourney.RatesToFirst | pages/5_Conversion_Journey.py:163 | each step's rate is relative to step 0, missing exactly when step 0 has no sessions, and step 0's own rate is 1 |
| ConversionJourney.DropOff | pages/5_Conversion_Journey.py:172-173 | drop_off is 0 for the first row and previous − current for every other row |
| ConversionJourney.DropOffTotal | pages/5_Conversion_Journey.py:172-173 | the drop-offs sum to first step − last step |
| ConversionJourney.Telescope | pages/5_Conversion_Journey.py:172 | consecutive differences telescope |
| ConversionJourney.OverallConversion | pages/5_Conversion_Journey.py:188 | last step / first step, None exactly when the first step is 0 |
| ProductJourney.StepSessions | pages/6_Product_Journey_Flows.py:54-58 | a step's sessions are among the product's viewers |
| ProductJourney.StepMeaning | pages/6_Product_Journey_Flows.py:54-58 | a session counts for a step exactly when it has a pageview of the product and a pageview of one of the step's URLs |
| ProductJourney.FunnelOf | pages/6_Product_Journey_Flows.py:54-66 | the funnel is named after the product, and no step counts more sessions than viewed the product |
| ProductJourney.DetailPages | pages/6_Product_Journey_Flows.py:50-52 | the funnels are built for every product URL except the "/products" listing |
| ProductJourney.ProductFunnels | pages/6_Product_Journey_Flows.py:49-66 | one funnel per detail page, in order |
| ProductJourney.BuildFunnels | pages/6_Product_Journey_Flows.py:49-66 | the loop builds exactly the funnels of the detail pages |
| ProductJourney.ProductFunnelsStep | pages/6_Product_Journey_Flows.py:50-60 | the listing adds no funnel, every other URL adds its own |
| ProductJourney.FourProductFunnels | pages/6_Product_Journey_Flows.py:34-52 | the four bear and panda pages get a funnel each |
| ProductJourney.KmLabel | pages/6_Product_Journey_Flows.py:87-92 | millions with one decimal and "M", thousands with two decimals and "K", otherwise the integer |
| ProductJourney.ConvRate | pages/6_Product_Journey_Flows.py:107 | thank-you / cart, missing exactly when cart is 0 |
| ProductJourney.BestIndex | pages/6_Product_Journey_Flows.py:108 | the top product's rate is beaten by no other, missing rates sorting last |
| ProductJourney.BestHasRate | pages/6_Product_Journey_Flows.py:107-108 | once any product has a cart session the top product has a rate |
| ProductJourney.BestProduct | pages/6_Product_Journey_Flows.py:106-111 | no metric exactly when there are no funnels; otherwise a product's name with its rate as a percentage |
| ProductJourney.GroupEntries | pages/6_Product_Journey_Flows.py:118 | one group maps each of its URLs to its name |
| ProductJourney.UrlToGroup | pages/6_Product_Journey_Flows.py:118 | a URL is a key exactly when some group lists it, and it maps to the last group that lists it |
| ProductJourney.GroupOfUrl | pages/6_Product_Journey_Flows.py:118 | with disjoint groups, each URL maps to its own group |
| ProductJourney.FunnelGroupsDisjoint | pages/6_Product_Journey_Flows.py:32-45 | no URL is listed in two of the six groups |
| ProductJourney.TagOfGroup | pages/6_Product_Journey_Flows.py:32-45 | the URLs of different groups are told apart by a tag |
| ProductJourney.NextFrom | pages/6_Product_Journey_Flows.py:120 | the first later pageview of the session, found exactly when one exists |
| ProductJourney.NextFromSkips | pages/6_Product_Journey_Flows.py:120 | the search may skip a row of another session |
| ProductJourney.NextPage | pages/6_Product_Journey_Flows.py:120 | `next_page` is the URL of the session's next pageview, missing for the last pageview or a missing session id |
| ProductJourney.GroupOf | pages/6_Product_Journey_Flows.py:121-122 | a group is found exactly for a present URL that has one |
| ProductJourney.Augment | pages/6_Product_Journey_Flows.py:119-122 | every row keeps its pageview and gets its next page, its group and its next page's group |
| ProductJourney.Flows | pages/6_Product_Journey_Flows.py:128-132 | the transitions are exactly those of the product's sessions' rows that have both groups |
| ProductJourney.FlowIsTransition | pages/6_Product_Journey_Flows.py:120-132 | a counted transition leads from a product session's pageview to a later pageview of the same session |
| ProductJourney.FlowGroups | pages/6_Product_Journey_Flows.py:133 | each distinct transition once |
| ProductJourney.FlowCountsAddUp | pages/6_Product_Journey_Flows.py:133-135 | the link counts add up to the number of kept transitions |
| ProductJourney.Labels | pages/6_Product_Journey_Flows.py:143 | the node labels are the groups at either end of a link, each once |
| ProductJourney.LinksResolve | pages/6_Product_Journey_Flows.py:144-155 | every link's source and target resolve to the node with that label |
| ProductPerformance.GrossTotal | pages/7_Product_Performance.py:35 | gross revenue is 0 without orders and never negative when no price is |
| ProductPerformance.RefundsTotal | pages/7_Product_Performance.py:43 | the refunds total is 0 without refunds and never negative when no amount is |
| ProductPerformance.NetTotal | pages/7_Product_Performance.py:44 | net revenue equals gross without refunds and is at most gross when no refund amount is negative |
| ProductPerformance.InsertDay | pages/7_Product_Performance.py:36 | inserting a day keeps the days strictly increasing and adds exactly that day |
| ProductPerformance.OrderDays | pages/7_Product_Performance.py:30-36 | the order dates, each once, in increasing order; an order without a timestamp has none |
| ProductPerformance.DailyRows | pages/7_Product_Performance.py:36-41 | one row per day, in order, each the gross, refunds and net of that day |
| ProductPerformance.DailyNet | pages/7_Product_Performance.py:36-41 | the trend has a row for exactly the days with an order, in increasing order, and each row is that day's gross, refunds and net |
| ProductPerformance.DailyRowOf | pages/7_Product_Performance.py:36-41 | a day's gross is the price sum of its orders, its refunds the amount sum of its refunds (0 without any), and net = gross − refunds |
| ProductPerformance.RefundOnlyDayDropped | pages/7_Product_Performance.py:39 | the left merge drops a day that has refunds but no order |
| ProductPerformance.DayWithoutRefunds | pages/7_Product_Performance.py:40-41 | a day without refunds has refunds 0 and net equal to gross |
| ProductPerformance.RowsSum | pages/7_Product_Performance.py:36-41 | the net values of the rows add up to the day groups' gross minus their refunds |
| ProductPerformance.DailyNetAddsUp | pages/7_Product_Performance.py:35-44 | with every row dated and every refund on an order day, the daily net values add up to the net total |
| ProductPerformance.ProductRevenue | pages/7_Product_Performance.py:76 | a product's revenue is 0 when no item carries its name and never negative when no price is |
| ProductPerformance.ProductRevenueAddsUp | pages/7_Product_Performance.py:76 | the product bars add up to the revenue of the items that have a product name |
| ProductPerformance.RefundChargedToOtherProduct | pages/7_Product_Performance.py:98-99 | as written, a refund of one item of an order is charged to every product of that order |
| ProductPerformance.OrderRefund | pages/7_Product_Performance.py:98-99 | an order no refund names has refund total 0 (the fillna), and the total is non-negative when every amount is |
| ProductPerformance.ByOrder | pages/7_Product_Performance.py:99 | every item row carries the refund total of its order |
| ProductPerformance.ProductRefundsAsWritten | pages/7_Product_Performance.py:98-103 | as written: a product is charged nothing when no order of its items has a refund, and never a negative amount when no refund is negative |
| ProductPerformance.ItemRefund | pages/7_Product_Performance.py:98 | corrected: an item's own refunds are non-negative when every amount is |
| ProductPerformance.ProductRefundsIntended | pages/7_Product_Performance.py:98-103 | corrected: a product's own items' refunds are non-negative when every amount is |
| ProductPerformance.UnrefundedProduct | pages/7_Product_Performance.py:98-103 | corrected: a product none of whose items was refunded has no refunds |
| ProductPerformance.ZeroOnGroup | pages/7_Product_Performance.py:101-103 | a group whose rows all contribute 0 sums to 0 |
| ProductPerformance.IntendedRefundsAddUp | pages/7_Product_Performance.py:101-104 | corrected: the products' refunds add up to the refunds of the named items |
| ProductPerformance.RefundRate | pages/7_Product_Performance.py:105-106 | refunds / revenue when revenue is non-zero; over zero revenue a positive refund gives 0 and anything else no rate |
| ProductPerformance.RefundRowOf | pages/7_Product_Performance.py:98-105 | as written: a product's row carries its name, its revenue, as refunds the refund totals of the orders of its item rows (one per item row), and the rate of those refunds to the revenue |
| ProductPerformance.RefundTable | pages/7_Product_Performance.py:98-106 | as written: exactly one row for each product name of the items, each the as-written row of that product |
| ProductPerformance.RefundRowIntended | pages/7_Product_Performance.py:101-105 | corrected: a product's row carries its name, its revenue, the refunds of its own items and their rate |
| ProductPerformance.RefundTableIntended | pages/7_Product_Performance.py:101-106 | corrected: exactly one row for each product name of the items, each the corrected row of that product |
| ProductPerformance.RefundRowWith | pages/7_Product_Performance.py:101-105 | a row holds the product's revenue, the given refunds and the rate of the two |
| ProductPerformance.RefundTableWith | pages/7_Product_Performance.py:101-104 | one row per product name of the items and no other |
| ProductPerformance.AsWrittenCoversIntended | pages/7_Product_Performance.py:98-104 | when each refund names the order of the item it refunds and no amount is negative, the page charges every product at least the refunds of its own items |
| ProductPerformance.ItemWithinOrder | pages/7_Product_Performance.py:98 | an item's refunds are at most its order's refund total, under the same conditions |
| ProductPerformance.NamesOf | pages/7_Product_Performance.py:191 | the product names of one order's items |
| ProductPerformance.Basket | pages/7_Product_Performance.py:190-194 | an order's basket is its product names, each once, sorted |
| ProductPerformance.Baskets | pages/7_Product_Performance.py:190-194 | one basket per order id of the items, each the sorted distinct product names of that order |
| ProductPerformance.RowPairs | pages/7_Product_Performance.py:202-203 | the inner loop pairs position i with each later position, in order |
| ProductPerformance.PairsUpToMembers | pages/7_Product_Performance.py:201-203 | the pairs of the first i positions are exactly the pairs of a position below i with a later one |
| ProductPerformance.CollectPairs | pages/7_Product_Performance.py:197-203 | the nested loops build exactly the pairs of every basket, in order |
| ProductPerformance.AppendBasket | pages/7_Product_Performance.py:199-203 | one basket appends its pairs, none for a single product |
| ProductPerformance.AllPairsStep | pages/7_Product_Performance.py:198 | each basket extends the list by its own pairs |
| ProductPerformance.PairsUpToStep | pages/7_Product_Performance.py:201 | each position extends the pairs by its row |
| ProductPerformance.AppendRow | pages/7_Product_Performance.py:202-203 | the inner loop appends exactly the row's pairs |
| ProductPerformance.PairsAscend | pages/7_Product_Performance.py:192-203 | in a sorted basket every pair is ascending |
| ProductPerformance.PairsUpToCount | pages/7_Product_Performance.py:201-203 | the first i positions of k products give i(2k − i − 1)/2 pairs |
| ProductPerformance.CountStep | pages/7_Product_Performance.py:202 | the pair count grows by k − i − 1 per position |
| ProductPerformance.BasketPairCount | pages/7_Product_Performance.py:200-203 | an order of k distinct products gives k(k − 1)/2 pairs |
| ProductPerformance.AllPairsAscend | pages/7_Product_Performance.py:190-203 | every pair in the list is ascending |
| ProductPerformance.InsertDesc | pages/7_Product_Performance.py:211 | insertion keeps the descending order and adds the row |
| ProductPerformance.PrependDesc | pages/7_Product_Performance.py:211 | a largest row may go first |
| ProductPerformance.SortDesc | pages/7_Product_Performance.py:211 | the sort is descending by count and a permutation |
| ProductPerformance.PairCounts | pages/7_Product_Performance.py:208-212 | one row per distinct pair, sorted by descending count, each carrying how often it occurs |
| ProductPerformance.PairCountsMembers | pages/7_Product_Performance.py:209-211 | sorting the counts of the distinct pairs keeps one correct row per pair |
| ProductPerformance.PairCountsAddUp | pages/7_Product_Performance.py:209 | the pair counts add up to the number of pairs |
| ProductPerformance.TopPair | pages/7_Product_Performance.py:215-220 | a dash and 0 without pairs, else the first row as "a + b" with its count |
| ProductPerformance.TopPairIsMostFrequent | pages/7_Product_Performance.py:207-220 | the top pair is the dash exactly when there are no pairs; otherwise its count is that of some pair and at least every pair's count |
| UserEngagement.BouncedRows | pages/8_User_Engagement.py:34-36 | the bounced sessions are exactly the sessions with exactly one pageview |
| UserEngagement.BounceRate | pages/8_User_Engagement.py:34-36 | missing exactly when there are no sessions, otherwise the number of one-pageview session rows divided by the number of session rows, in [0,1] |
| UserEngagement.PageBounceIsAggBounce | pages/8_User_Engagement.py:34-36 | with present session ids the page's bounce rate equals the shared bounce rate of `utils/agg.py` |
| UserEngagement.BouncedRowsAgree | pages/8_User_Engagement.py:34-36 | the page's bounced sessions are the shared bounced sessions |
| UserEngagement.NoPageviewsNoBounce | pages/8_User_Engagement.py:35-36 | sessions without pageviews give a bounce rate of 0, not a missing one |
| UserEngagement.NoneBounced | pages/8_User_Engagement.py:35 | without pageviews no session bounces |
| UserEngagement.Urls | pages/8_User_Engagement.py:48 | the URL column, row for row |
| UserEngagement.TopPagesAddUp | pages/8_User_Engagement.py:48 | the views of the top pages add up to the number of pageviews |
| UserEngagement.OfSession | pages/8_User_Engagement.py:59-73 | the pageviews of one session, keeping time order |
| UserEngagement.SessionPages | pages/8_User_Engagement.py:125 | exactly the session's pageviews, sorted by time |
| UserEngagement.PvIds | pages/8_User_Engagement.py:59 | the present session ids of the pageviews |
| UserEngagement.SessionGroups | pages/8_User_Engagement.py:127 | the groups of the group-by are the present session ids, each once, sorted |
| UserEngagement.EntryPage | pages/8_User_Engagement.py:59-73 | a session has an entry page exactly when it has a pageview |
| UserEngagement.EntryIsEarliest | pages/8_User_Engagement.py:59-73 | the entry page is the URL of one of the session's pageviews no other is earlier than |
| UserEngagement.Entries | pages/8_User_Engagement.py:59-60 | one entry URL per session group, in order |
| UserEngagement.EntryPagesAddUp | pages/8_User_Engagement.py:60 | the entry counts add up to the number of sessions with a pageview |
| UserEngagement.BounceByEntry | pages/8_User_Engagement.py:71-78 | an entry page's bounce rate is its one-pageview session rows over its session rows, in [0,1], and missing exactly when no session entered there |
| UserEngagement.PvCount | pages/8_User_Engagement.py:71-72 | a session row's pageview count is 0 exactly when it has no id or no pageview carries its id (the fillna) |
| UserEngagement.EntryOf | pages/8_User_Engagement.py:73-74 | a session row gets an entry URL exactly when it has an id some pageview carries, and that URL is the session's entry page |
| UserEngagement.FilterCountAtMost | pages/8_User_Engagement.py:76-77 | an entry page has at most as many bounces as sessions |
| UserEngagement.CountKeyAppend | pages/8_User_Engagement.py:76 | a group's size over two row lists is the sum of its sizes |
| Seqs.CountKeyZero | pages/8_User_Engagement.py:76 | a group is empty exactly when no row has its key |
| UserEngagement.BouncesByEntryAddUp | pages/8_User_Engagement.py:71-78 | the bounces counted under the entry pages add up to all bounced sessions |
| UserEngagement.BouncedHasEntry | pages/8_User_Engagement.py:74-76 | every bounced session has an entry page, so none is lost by the group-by |
| UserEngagement.RepeatOf | pages/8_User_Engagement.py:90-93 | a user's block is exactly that user's repeat sessions |
| UserEngagement.UserBlock | pages/8_User_Engagement.py:92-93 | the block is sorted by time and a permutation of the user's repeat sessions |
| UserEngagement.Diffs | pages/8_User_Engagement.py:93 | the gap is present exactly after the first row when both timestamps are, and is then the difference in seconds |
| UserEngagement.SortedGaps | pages/8_User_Engagement.py:92-93 | in a time-sorted block every gap is non-negative and missing only for a missing timestamp |
| UserEngagement.GapsSpan | pages/8_User_Engagement.py:93 | with every timestamp present the gaps add up to last minus first |
| UserEngagement.DiffsPrefix | pages/8_User_Engagement.py:93 | the gaps of a prefix are a prefix of the gaps |
| UserEngagement.SumIntsAppend | pages/8_User_Engagement.py:93 | summing one more gap adds it |
| UserEngagement.Hours | pages/8_User_Engagement.py:93 | the gaps in hours, seconds / 3600, missing where the gap is |
| UserEngagement.RepeatUsers | pages/8_User_Engagement.py:92-93 | the users with a repeat session, each once, sorted |
| UserEngagement.RepeatUserIds | pages/8_User_Engagement.py:90-93 | the users with a repeat session |
| UserEngagement.GapHours | pages/8_User_Engagement.py:90-93 | one gap per repeat-session row of the listed users, the first row of a user having none (the dropped NaN) |
| UserEngagement.GapHoursNonNegative | pages/8_User_Engagement.py:92-93 | every gap in hours is non-negative |
| UserEngagement.MinPresent | pages/8_User_Engagement.py:96 | the minimum of the present gaps, missing exactly when none is present |
| UserEngagement.MaxPresent | pages/8_User_Engagement.py:97 | the maximum of the present gaps, missing exactly when none is present |
| UserEngagement.StatsOf | pages/8_User_Engagement.py:94-99 | stats exist exactly when a gap does; they are the least gap, the greatest gap and the mean of the gaps (min(), max() and mean() skipping NaN), and min ≤ average ≤ max with every gap between min and max |
| UserEngagement.GapColumn | pages/8_User_Engagement.py:90-93 | the gap column never holds a negative value |
| UserEngagement.RepeatStats | pages/8_User_Engagement.py:90-99 | stats exist exactly when a repeat gap does; they are the least, the greatest and the mean gap in hours of the diff_hours column, and 0 ≤ min ≤ average ≤ max |
| UserEngagement.NoRepeatNoStats | pages/8_User_Engagement.py:90-94 | without repeat sessions there are no stats |
| UserEngagement.NoRepeatUserIds | pages/8_User_Engagement.py:90-91 | without repeat sessions there are no repeat users |
| UserEngagement.Join | pages/8_User_Engagement.py:128 | joining one URL gives it unchanged, and the joined string starts with its first URL |
| UserEngagement.Path | pages/8_User_Engagement.py:125-128 | a session without pageviews has the empty path |
| UserEngagement.PathStartsAtEntry | pages/8_User_Engagement.py:125-128 | a session's path starts with its entry page and is just that page for a single pageview |
| UserEngagement.Paths | pages/8_User_Engagement.py:125-130 | one path per session group, in order |
| UserEngagement.PathCountsAddUp | pages/8_User_Engagement.py:132 | the path counts add up to the number of sessions with a pageview |
| UserEngagement.MostFrequent | pages/8_User_Engagement.py:132-136 | a candidate occurring at least as often as every other |
| UserEngagement.TopPath | pages/8_User_Engagement.py:132-137 | no top path exactly when no pageview has a session id; otherwise a path with its count, no path being more frequent |
| UserEngagement.FirstThree | pages/8_User_Engagement.py:157 | at most the first three URLs, all of them when there are at most three |
| UserEngagement.Firsts | pages/8_User_Engagement.py:155-159 | per session group, the first three URLs of its time-sorted pageviews |
| UserEngagement.StepLinks | pages/8_User_Engagement.py:163-164 | one link per consecutive pair of steps |
| UserEngagement.CollectLinks | pages/8_User_Engagement.py:161-164 | the loops append exactly the links of every session's steps |
| UserEngagement.AppendLinks | pages/8_User_Engagement.py:163-164 | the inner loop appends exactly one session's links |
| UserEngagement.LinksStep | pages/8_User_Engagement.py:162 | each session extends the links by its own |
| UserEngagement.LinkMeans | pages/8_User_Engagement.py:161-164 | a link is in the list exactly when it joins two consecutive steps of some session |
| UserEngagement.AtMostTwoPerSession | pages/8_User_Engagement.py:157-163 | three steps give at most two links per session |
| UserEngagement.Sources | pages/8_User_Engagement.py:166 | the link sources, in order |
| UserEngagement.Targets | pages/8_User_Engagement.py:166 | the link targets, in order |
| UserEngagement.Nodes | pages/8_User_Engagement.py:166 | the nodes are exactly the link endpoints, each once, sorted |
| UserEngagement.NodeIndexBijective | pages/8_User_Engagement.py:167 | `node_index` maps each node to its position and back |
| UserEngagement.CountsOf | pages/8_User_Engagement.py:170-174 | one count per distinct link: how often it occurs |
| UserEngagement.SankeyOf | pages/8_User_Engagement.py:166-174 | one Sankey link per distinct link, its source and target indices naming that link's endpoints, its value its positive count |
| UserEngagement.KeysAreNodes | pages/8_User_Engagement.py:172-173 | every link endpoint is a node |
| UserEngagement.KeysCounted | pages/8_User_Engagement.py:170 | every distinct link occurs at least once |
| UserEngagement.Indices | pages/8_User_Engagement.py:172-173 | each endpoint's index points at that node |
| UserEngagement.SumCounts | pages/8_User_Engagement.py:170-174 | the listed counts sum to the rows with those keys |
| UserEngagement.SankeyValuesAddUp | pages/8_User_Engagement.py:170-174 | the Sankey values add up to the number of links |
| CustomerInsights.MatchIds | pages/9_Customer_Insights.py:65 | the order ids the left merge pairs with a session are exactly those of its orders |
| CustomerInsights.RowsOf | pages/9_Customer_Insights.py:65-66 | a session keeps at least one row; a row is converted exactly when it carries one of the session's orders, and some row is converted exactly when the session has an order |
| CustomerInsights.SessOrders | pages/9_Customer_Insights.py:65-66 | every session keeps a row, no row invents a session, and `converted` means the row carries an order of its session |
| CustomerInsights.ConvertedIffOrdered | pages/9_Customer_Insights.py:65-66 | a session has a converted row exactly when its id is among the ordered sessions |
| CustomerInsights.ConvertedRowExists | pages/9_Customer_Insights.py:65-66 | a session with an order gets a converted row |
| CustomerInsights.CellRows | pages/9_Customer_Insights.py:67 | the rows of one source and device cell |
| CustomerInsights.ConvertedRows | pages/9_Customer_Insights.py:66-67 | exactly the converted rows |
| CustomerInsights.ConversionCell | pages/9_Customer_Insights.py:65-67 | a cell's rate is the share of its merged rows that converted, in [0,1], and it has one exactly when some session has that source and device |
| CustomerInsights.SessionUserIds | pages/9_Customer_Insights.py:83 | the user id column of the session rows, row by row |
| CustomerInsights.Users | pages/9_Customer_Insights.py:83-90 | the users with a session, each once, sorted |
| CustomerInsights.UserOrders | pages/9_Customer_Insights.py:84 | exactly the user's orders |
| CustomerInsights.SessionCount | pages/9_Customer_Insights.py:83 | a user's session count is 0 exactly when none of their session rows has an id |
| CustomerInsights.OrderCount | pages/9_Customer_Insights.py:85 | a user's order count is 0 exactly when no order belongs to them |
| CustomerInsights.Revenue | pages/9_Customer_Insights.py:86 | a user's revenue is 0 without orders (the fillna) and never negative when no price is |
| CustomerInsights.AvgOrderValue | pages/9_Customer_Insights.py:87-90 | the mean price of the user's order rows, 0 for a user without orders |
| CustomerInsights.MeanOrZero | pages/9_Customer_Insights.py:87-90 | the mean, with the missing mean filled with 0 |
| CustomerInsights.ConversionOf | pages/9_Customer_Insights.py:91 | orders / sessions, missing exactly when the user has no session id |
| CustomerInsights.UserRowOf | pages/9_Customer_Insights.py:83-92 | a user's row holds their session count, order count and revenue, the average order value as revenue over order rows, conversion as orders over sessions (missing exactly without sessions), and the repeat flag set exactly at two or more orders |
| CustomerInsights.RepeatPurchase | pages/9_Customer_Insights.py:92 | 1 exactly when the user has at least two orders, else 0 |
| CustomerInsights.UsersTable | pages/9_Customer_Insights.py:83-92 | one row per user with a session, in order, each that user's figures |
| CustomerInsights.RowUser | pages/9_Customer_Insights.py:90 | a user's row carries that user's id |
| CustomerInsights.UsersTableListsSessionUsers | pages/9_Customer_Insights.py:83-90 | the table lists exactly the users with a session; a user with orders only is dropped by the left merge |
| CustomerInsights.NoOrdersFilledWithZero | pages/9_Customer_Insights.py:90-92 | a user without orders gets 0 orders, revenue, average and repeat flag, and a 0 conversion rate |
| CustomerInsights.NoUserOrders | pages/9_Customer_Insights.py:84 | a user without orders has no order rows |
| CustomerInsights.ListedUserHasSessions | pages/9_Customer_Insights.py:83-91 | with present session ids every listed user has a session and a conversion rate |
| CustomerInsights.AverageIsRevenuePerOrder | pages/9_Customer_Insights.py:85-87 | with distinct order ids, the average order value is the revenue over the order count |
| CustomerInsights.UserOrdersDistinct | pages/9_Customer_Insights.py:84-85 | a user's orders keep the ids distinct |
| CustomerInsights.DistinctIdCount | pages/9_Customer_Insights.py:85 | with distinct ids `nunique` counts every row |
| CustomerInsights.ConversionRateCanExceedOne | pages/9_Customer_Insights.py:83-91 | a user with one session and two orders, one from a session outside the filter, gets a rate of 2 |
| Groups.MatchedKeys | pages/2_Channel_Performance_and_Trends.py:42 | one key per session whose id matches the order's session id, and exactly those sessions' keys |
| Groups.Tag | pages/2_Channel_Performance_and_Trends.py:42 | one merged row per matched key, each the order with that key |
| Groups.MergeRows | pages/2_Channel_Performance_and_Trends.py:42 | an order's merged rows carry that order, one per matching session or a single one without a key when none matches; a present key comes from a matching session; every matching session gives a row |
| Groups.LeftMerge | pages/2_Channel_Performance_and_Trends.py:42 | the left merge keeps every order, pairs it with every matching session's key, keeps an unmatched order with a missing key, and invents no key |
| Groups.KeyAbsent | pages/2_Channel_Performance_and_Trends.py:43-46 | a key no row carries has sum 0 and size 0 |
| Groups.KeysOf | pages/2_Channel_Performance_and_Trends.py:37-43 | the groups of a table are its distinct present keys; a missing key forms no group |
| Groups.UnreachedGroup | pages/2_Channel_Performance_and_Trends.py:42-49 | a group no order reaches has no order ids and no revenue after the merge |
| Groups.MergedKeysFromSessions | pages/2_Channel_Performance_and_Trends.py:42-49 | every key on an order row is some session's key, so the outer merge adds no group |
| Groups.RevenueOfSingleGroup | pages/2_Channel_Performance_and_Trends.py:45 | rows that all carry one key sum wholly into that group |
| Groups.SomeKeys | pages/2_Channel_Performance_and_Trends.py:43 | the present keys, position for position |
| Groups.SomeKeysDistinct | pages/2_Channel_Performance_and_Trends.py:43 | distinct keys plus the missing key stay distinct |
| Groups.SomeKeyListed | pages/2_Channel_Performance_and_Trends.py:43 | a listed key is among the keys |
| Groups.GroupsAddUp | pages/2_Channel_Performance_and_Trends.py:43-46 | summed over all present groups, a column adds up to its total minus the rows with a missing key |
| Groups.MeanPresent | pages/2_Channel_Performance_and_Trends.py:122-124 | the sum of the present values over their count, missing exactly when none is present |
| Groups.CountPresent | pages/2_Channel_Performance_and_Trends.py:122-124 | the number of present values, 0 exactly when none is present |
| Groups.MeanWithinBounds | pages/2_Channel_Performance_and_Trends.py:124 | the mean lies within any bounds of the present values |
| Groups.DivideBounds | pages/2_Channel_Performance_and_Trends.py:124 | a sum within n·lo and n·hi divided by n lies within lo and hi |
| Groups.Repeated | pages/2_Channel_Performance_and_Trends.py:124 | adding a value n times gives n times the value |
| Groups.SumPresentBounds | pages/2_Channel_Performance_and_Trends.py:124 | the sum of the present values lies between count·lo and count·hi |

## Left out

- Streamlit and Plotly: widgets, charts, metrics, captions, colours and layout are rendering. `st.rerun` and `st.stop` are modelled as the end of the script run (`Wrappers.Flow`), and `st.navigation` / `nav.run()` as the returned list of entries.
- The SQL engine, `pd.read_sql_query` and the `st.cache_*` decorators in `utils/db.py` are I/O. The reader is a parameter that yields the chunks of a table or fails. `pd.concat` of the chunks is not modelled: a loaded table is its list of parts, and no parts stands for the empty frame.
- `pd.to_datetime`, `pd.to_numeric` and `str()` of a cell are foreign library calls. They are parameters of the loader, each returning a value or a failure.
- The KMeans / StandardScaler segmentation of `pages/9_Customer_Insights.py` (lines 94-143) is floating-point numerics inside scikit-learn.
- The device, source and campaign breakdown charts of `pages/9_Customer_Insights.py` (lines 32-60) and their legend maps are chart input only.
- `generate_hash.py` is password hashing through third-party APIs. `utils/ui.py` probes Streamlit versions. `utils/config.py` holds constants, and the model takes the configuration as a parameter. `utils/filters.py` holds sidebar widgets; its result `F` is an input record.
- The login widget, cookies and password checking of the authenticator are third-party. Their outcome (the authentication status, the logout call succeeding or raising) is a parameter. The login widget's writes are a map limited to the keys it sets: authentication_status, name and username.
- The wall clock: "now" is a parameter.
- Calendar arithmetic is not derived. A timestamp carries its year, month and day of month as given fields. Only the day ordinal and the weekday come from the seconds.
- Decimal digit rendering of numbers in the formatters. The result is a `Formatters.Text` value holding the prefix, the value, the number of decimals, the thousands separator flag and the suffix, not the characters.
- `Db.Lower` folds ASCII letters only. Unicode case folding is not modelled.
- inf and NaN both become `None`. The model does not tell them apart where no page does.
- The row ids of pageviews, orders, order items, products and refunds, the user ids, pageview URLs and prices are never missing. Session ids, timestamps, the repeat flag and the categorical columns may be missing.
- The commented-out blocks of `app.py`, `utils/auth_state.py` and the pages are not modelled.
- The `bounce_rate` column of `pages/2_Channel_Performance_and_Trends.py` line 39 is not modelled. It is never shown: without an `is_bounce` column it is a count.
- The `product_pages`, `paths` and `paths_orders` frames of `pages/6_Product_Journey_Flows.py` lines 26-28 are not modelled. They feed no output.
- The seasonality section of `pages/7_Product_Performance.py` (lines 126-184) is not modelled.
- The percent and K/M labels of the page 8 charts and the Sankey hover labels (`pages/8_User_Engagement.py` line 175) are text formatting.
- The column-presence tests of `pages/7_Product_Performance.py` (lines 23-27, 35, 43, 75, 97, 189) are taken as passing: the loaded tables always have these columns.
- Output row order of group-bys and the order of rows with equal sort keys are not modelled. pandas' default sort is not stable, and `value_counts` breaks ties by its own rules.
- ProductJourney.BestIndex: among products with equal rates, the model does not fix which one the unstable sort puts first. The contract says only that no product's rate beats it.
- ProductPerformance.PairCounts: among pairs with equal counts, the order is not fixed. So `TopPair` is one of the most frequent pairs, not necessarily the one pandas lists first.
- UserEngagement.TopPath: among paths with the top count, the model does not fix which one `value_counts` lists first.
- UserEngagement.BounceByEntry: the descending sort of the chart rows is not modelled. The contract is stated per entry page.
- ProductPerformance.RefundRate: 0/0 stays missing. Whether `replace([pd.NA, …], 0.0)` also replaces NaN depends on the pandas version, and the model takes the reading where it does not.
- ProductPerformance.Baskets: an item without a product name is left out of its order's basket. The written page would fail to sort a NaN beside strings.

## Findings

| source | as written | input that shows it | evidently intended | confidence | as-written member | corrected member |
|---|---|---|---|---|---|---|
| pages/1_Traffic_and_Acquisition.py:143-146 | the "brand"/"direct" test runs before the "nonbrand" test, and every text containing "nonbrand" contains "brand" | the campaign "nonbrand" | Broad/Nonbrand for nonbrand campaigns | not executed | Traffic.NonbrandIsDirect | Traffic.IntendedClassification |
| pages/7_Product_Performance.py:98-99 | refunds are summed per order and merged on `order_id`, so every item row of the order carries the whole order's refund | one order with a $10 panda and a $20 bear, and a $10 refund of the panda item | each product carries the refunds of its own items (bear: $0) | not executed | ProductPerformance.RefundChargedToOtherProduct | ProductPerformance.UnrefundedProduct |
| pages/5_Conversion_Journey.py:128-129 | the variant rate divides two Series aligned on the variant, and a variant with no thank-you session is missing from the numerator | one "/billing-2" pageview of session "s", with no thank-you pageview | a rate of 0 for that variant | not executed | ConversionJourney.UnconvertedVariantHasNoRate | ConversionJourney.IntendedVariantRate |
