# memproto activity feed and FAQ accordion, modelled in Dafny

This project models the small amount of logic in the memproto web front-end:

- **The activity endpoint** (`GET /api/activity`). It clamps `limit` (default 20, at most 50). It maps
  `type` to a filter: `buy` keeps types containing "buy" or "bought", `claim` keeps types containing
  "claim", and anything else keeps every type. Both comparisons ignore case. It always drops types
  containing "failed". It extracts a token name from each description with the first match of
  `/\(([^)]+)\)/` and wraps the result in `{success, activities, count}`, or in `{success: false, error}`
  with status 500.
- **The "Recent Activity" widget** (`RecentBuys`). It has `timeAgo`'s bucketing into s/m/h/d, a
  case-sensitive type classifier behind the label and the icon (target > self > combined > default),
  the explorer link and the row title, the `loading`/`buys` state each fetch updates, and the choice
  between skeleton, nothing and the list.
- **The FAQ accordion**. `toggleItem` flips one index in the `openItems` set, and an answer is shown
  exactly when its index is open.

Files: `wrappers.dfy` (Option), `strings.dfy` (substring test, ASCII lower-casing, decimal text of
integers and its inverse), `activity_route.dfy` (module `ActivityRoute`),
`recent_buys.dfy` (module `SBuys`), `faq.dfy` (module `Faq`).

The store is not modelled as code. It is a parameter of `Get` (a function from the built `Query` to an
outcome), and the ghost predicate `ActivityRoute.Answers` says what a returned list must be:

- every row qualifies and comes from the table;
- no row appears more often than the table holds it;
- the rows are newest first;
- there are at most `limit` rows;
- a qualifying row (or a further copy of a row the table holds more than once) is left out only if the list is full of rows that are at least as recent.

The current time is a parameter of `TimeAgo` and of the widget's `View`, in integer milliseconds.

Three behaviours of the code worth knowing:

- `limit` is capped only from above: a negative limit passes through `EffectiveLimit` unchanged;
- the pattern needs a non-empty group, so `"()(A)"` gives `"A"` and `"()"` gives no name;
- a record whose `activity_type` is NULL never passes `not ilike '%failed%'` (SQL's unknown is not
  true), so `Qualifies` requires a present type. The widget, on the other hand, treats a missing type
  as a plain "Buy".

## Model

| member | source | states |
|---|---|---|
| `ActivityRoute.EffectiveLimit` | src/app/api/activity/route.js:13 | the limit is at most 50; a missing limit gives 20; a requested n is kept exactly when n <= 50, and anything above 50 becomes 50 (no lower clamp) |
| `ActivityRoute.FilterOf` | src/app/api/activity/route.js:12-35 | the buy filter is chosen iff type is "buy", the claim filter iff type is "claim"; every other value, the empty string and a missing type add no type filter |
| `ActivityRoute.BuildQuery` | src/app/api/activity/route.js:13-35 | the query sent to the store never asks for more than 50 rows |
| `ActivityRoute.MatchesFilter` | src/app/api/activity/route.js:31-35 | the type test each filter adds (no test, `%buy%` or `%bought%`, `%claim%`); specified by BuyFilterQualifies, ClaimFilterQualifies and OtherTypesOnlyExcludeFailed |
| `ActivityRoute.NotFailed` | src/app/api/activity/route.js:38 | the `not ilike '%failed%'` test; specified by QualifyingIsNeverFailed |
| `ActivityRoute.Qualifies` | src/app/api/activity/route.js:31-38 | a record the query may return: a present type passing the filter and the failed exclusion; specified by the three filter lemmas below |
| `ActivityRoute.Answers` | src/app/api/activity/route.js:16-38 | what a list returned by the store must satisfy: qualifying table rows, none used more often than the table holds it, newest first, at most the limit, and full of rows at least as recent whenever a qualifying row, or a further copy of a repeated row, is left out; specified by GetSound |
| `ActivityRoute.RepeatedRowIsNoAnswer` | src/app/api/activity/route.js:16-38 | repeating one table row in place of another qualifying row is not an answer |
| `ActivityRoute.DroppedCopyIsNoAnswer` | src/app/api/activity/route.js:16-38 | a list that leaves out one copy of a row the table holds twice, with room for both, is not an answer |
| `ActivityRoute.BuyFilterQualifies` | src/app/api/activity/route.js:31-38 | with type "buy" a record qualifies iff its lower-cased type contains "buy" or "bought" and not "failed" |
| `ActivityRoute.ClaimFilterQualifies` | src/app/api/activity/route.js:33-38 | with type "claim" a record qualifies iff its lower-cased type contains "claim" and not "failed" |
| `ActivityRoute.OtherTypesOnlyExcludeFailed` | src/app/api/activity/route.js:12-38 | for any other type value only the "failed" exclusion applies |
| `ActivityRoute.QualifyingIsNeverFailed` | src/app/api/activity/route.js:38 | whatever the filter, no qualifying record's lower-cased type contains "failed" |
| `ActivityRoute.FirstClose` | src/app/api/activity/route.js:53 | returns the index of the first ')' at or after k, or none when no ')' follows |
| `ActivityRoute.MatchAt` | src/app/api/activity/route.js:53 | the pattern matches at i iff s[i] is '(' not directly followed by ')' and some ')' follows; the group is non-empty, free of ')' and parenthesised at i |
| `ActivityRoute.ExtractFrom` | src/app/api/activity/route.js:53 | a group found by the scan from i is parenthesised at some position at or after i |
| `ActivityRoute.ExtractFromSpec` | src/app/api/activity/route.js:53 | scanning from i finds a match iff some position >= i starts one, and the group found is at the leftmost such position |
| `ActivityRoute.ExtractFromIsLeftmost` | src/app/api/activity/route.js:53 | positions that start no match are skipped by the scan |
| `ActivityRoute.ExtractTokenName` | src/app/api/activity/route.js:50-57 | an extracted name comes from a present description, is non-empty, contains no ')' and occurs as "(" + name + ")" in the description |
| `ActivityRoute.ExtractTokenNameSpec` | src/app/api/activity/route.js:50-57 | a name is extracted iff some position starts a match; the name is non-empty, contains no ')', "(" + name + ")" occurs in the description, and no earlier position starts a match |
| `ActivityRoute.GroupEndsAtFirstClose` | src/app/api/activity/route.js:53-55 | a matched group ends at the first ')' after its '(' |
| `ActivityRoute.MissingDescriptionHasNoToken` | src/app/api/activity/route.js:50-51 | a missing or empty description gives a null token name |
| `ActivityRoute.EmptyParenthesesDoNotMatch` | src/app/api/activity/route.js:53-56 | "()" gives a null token name |
| `ActivityRoute.EmptyParenthesesAreSkipped` | src/app/api/activity/route.js:53-56 | "()(A)" gives "A" |
| `ActivityRoute.DescriptionTokenExample` | src/app/api/activity/route.js:52-55 | "Bought own token (DOGE)" gives "DOGE" |
| `ActivityRoute.Enrich` | src/app/api/activity/route.js:59-62 | the record is kept unchanged and any token name added is non-empty and free of ')' |
| `ActivityRoute.EnrichAll` | src/app/api/activity/route.js:48-63 | the enriched list has the store list's length |
| `ActivityRoute.EnrichAllPreserves` | src/app/api/activity/route.js:48-63 | enrichment keeps the list's length and order and every record unchanged, and sets each token_name from that record's description |
| `ActivityRoute.RecordsOfEnrichAll` | src/app/api/activity/route.js:59-62 | dropping token_name again gives back exactly the store's list |
| `ActivityRoute.Respond` | src/app/api/activity/route.js:40-76 | the body is a success envelope iff the store returned rows; an error yields status 500 and "Database error: " + message; rows yield status 200, count equal to the number of activities, and the store's records in order |
| `ActivityRoute.Get` | src/app/api/activity/route.js:9-76 | the response is a success envelope iff the store returned rows for the query built from the parameters; status 500 goes with the error envelope and only with it |
| `ActivityRoute.GetSound` | src/app/api/activity/route.js:9-76 | for a store answer meeting the query's contract, a success response holds exactly the store's records, in order, at most the effective limit (so at most 50) of them, all qualifying and from the table, newest first, each with its extracted token name, and counts them; status 500 goes with the error envelope and only with it |
| `Strings.NatToString` | src/app/components/SBuys.js:35-40 | the decimal text of a count is non-empty, all digits, and starts with 0 only for 0 (no leading zeros) |
| `Strings.ParseIntToString` | src/app/components/SBuys.js:35-40 | the decimal text printed for a count reads back as that count |
| `SBuys.AgeOf` | src/app/components/SBuys.js:34-40 | the nested floors pick a bucket whose number lies in its range: seconds below 60, minutes in 1..59, hours in 1..23, days at least 1 |
| `SBuys.AgeText` | src/app/components/SBuys.js:35-40 | the text is the number followed by the unit letter, and reads back as exactly that bucket and number |
| `SBuys.AgeTextInjective` | src/app/components/SBuys.js:35-40 | different ages are shown as different texts |
| `SBuys.TimeAgo` | src/app/components/SBuys.js:33-41 | the text shown for a timestamp reads back as the age of the elapsed time |
| `SBuys.AgeOfClosedForm` | src/app/components/SBuys.js:34-40 | with s = floor(elapsed ms / 1000): s < 60 shows s seconds, s < 3600 shows s / 60 minutes, s < 86400 shows s / 3600 hours, otherwise s / 86400 days |
| `SBuys.TimeAgoExamples` | src/app/components/SBuys.js:33-41 | 45 s gives "45s", 125 s "2m", 7200 s "2h", 172800 s "2d" |
| `SBuys.Has` | src/app/components/SBuys.js:51-95 | `type?.includes(needle)`: false for a missing type, case-sensitive; specified by Label and IconOf |
| `SBuys.Label` | src/app/components/SBuys.js:92-97 | the label is "MEME Buy" whenever the type contains "target"; "Buyback" iff "self" without "target"; "Buy" iff none of target, self, combined (a missing type included); case-sensitive |
| `SBuys.LabelExamples` | src/app/components/SBuys.js:92-96 | a missing or empty type is labelled "Buy" |
| `SBuys.IconOf` | src/app/components/SBuys.js:50-89 | the print icon iff the type contains "target"; the buyback icon iff "self" without "target"; the combined icon iff "combined" without either |
| `SBuys.IconAgreesWithLabel` | src/app/components/SBuys.js:50-97 | print and combined icons go with "MEME Buy", the buyback icon with "Buyback", the default icon with "Buy" |
| `SBuys.ExplorerLink` | src/app/components/SBuys.js:154 | the link is "#" iff the signature is missing or empty, otherwise the solscan prefix followed by exactly the signature |
| `SBuys.Title` | src/app/components/SBuys.js:165 | the title is never empty: the token name when non-empty, the label otherwise |
| `SBuys.TitleOfEnriched` | src/app/components/SBuys.js:165 | for an enriched activity the title is the extracted token name whenever one was extracted, else the label |
| `SBuys.RowOf` | src/app/components/SBuys.js:147-191 | each row shows its own activity: the link is ExplorerLink of its signature (so "#" iff the signature is missing or empty), the title is Title of the activity (never empty), the subtitle is Label of its type and the icon IconOf of its type (so they agree), and the age text reads back as the age of the activity |
| `SBuys.FeedRequestIsBuyQuery` | src/app/components/SBuys.js:14 | the widget's request asks the store for up to 20 buy-type records |
| `SBuys.IsOk` | src/app/components/SBuys.js:15 | `response.ok`: a status in 200..299; specified by Accepted |
| `SBuys.Accepted` | src/app/components/SBuys.js:14-17 | a fetch yields a new list iff the reply is ok and its body is readable; a body without activities yields [] |
| `SBuys.RecentBuys.constructor` | src/app/components/SBuys.js:8-9 | buys start empty and loading starts true |
| `SBuys.RecentBuys.FetchRecentBuys` | src/app/components/SBuys.js:12-23 | after any fetch loading is false; buys are replaced by the accepted list and are otherwise unchanged |
| `SBuys.RecentBuys.View` | src/app/components/SBuys.js:99-140 | the skeleton (three placeholders) iff loading; nothing iff not loading with no buys; otherwise a list whose count is the number of buys, one row per buy in order |
| `SBuys.PollingScenario` | src/app/components/SBuys.js:25-30 | the mounted widget shows the skeleton; a failed first fetch renders nothing; a later successful fetch shows a list of its length; a failing fetch after that leaves the view unchanged |
| `Faq.Toggled` | src/app/FAQ/page.js:12-20 | the toggled index is open iff it was not; every other index keeps its membership; the set shrinks or grows by one |
| `Faq.ToggleTwice` | src/app/FAQ/page.js:12-20 | toggling the same index twice restores the original set |
| `Faq.TogglesCommute` | src/app/FAQ/page.js:12-20 | toggles of two indices give the same set in either order |
| `Faq.ToggledStaysInRange` | src/app/FAQ/page.js:61-67 | toggling a rendered question's index keeps the open set within [0, 5) |
| `Faq.FaqPage.constructor` | src/app/FAQ/page.js:10 | initially no item is open |
| `Faq.FaqPage.ToggleItem` | src/app/FAQ/page.js:12-20 | the new open set is the toggled copy of the old one; a rendered index keeps it within [0, 5) |
| `Faq.FaqPage.Items` | src/app/FAQ/page.js:61-83 | five entries; answer i is visible, and its chevron at 180 rather than 0, iff i is open |
| `Faq.ClickScenario` | src/app/FAQ/page.js:66-67 | after one click on question i exactly its answer has flipped and every other answer is as before; a second click restores the open set and the range invariant |

## Left out

- The Supabase client, its environment variables and the way the query runs are not modelled. The store is a parameter, and `Answers` only states the list's required properties. Which of several rows with equal `created_at` comes first is left open.
- URL parsing and the `parseInt` grammar are not modelled. `limit` arrives already parsed, and `None` stands for a missing or empty parameter. A non-numeric `limit` (NaN, passed on to the store) is not modelled.
- ILIKE case folding is modelled as ASCII lower-casing. Non-ASCII case pairs are not folded.
- The store is assumed to return either an error or a list. A response with neither (which would throw inside `map` and also end in a 500) is not modelled.
- `ActivityRoute.Answers`: the store's answer to a negative limit is not modelled; the model admits only an error there, because no list has at most a negative number of rows.
- Polling, `setInterval`/`clearInterval`, unmounting and overlapping requests are timers and concurrency. Each settled request is one `FetchRecentBuys` call, applied in the order the requests settle.
- The JSON decoding of the reply is not modelled. A readable body is assumed to hold enriched activities.
- `formatSol` is floating-point formatting and is not modelled.
- `timeAgo`'s parsing of date strings, including the invalid-date "NaNs" case, is not modelled. Times are integer milliseconds. Number-to-text follows integer decimal notation, so JavaScript's exponent form for magnitudes of 1e21 and above is not modelled.
- Presentation is not modelled: animations and their delays, JSX markup and classes, images, list keys, `console.error`, and the question and answer texts (only their count of five is used).
- `src/app/layout.tsx` is pure presentation and is not part of this model.
