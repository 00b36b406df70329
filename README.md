# Link shortener and inventory tracker: a Dafny model

This project models the logic core of a browser application. The application has two parts.

- **A URL shortener.** It issues six-character short codes for long URLs, follows a code back to its URL while counting clicks, and sorts links into categories from their hostname. It can also run a simulated four-provider URL security check.
- **A small inventory tracker.** It holds items with quantity, category and price, plus a list of categories.

Around these sit the views computed from the data:

- scheme normalisation in the URL form;
- the redirect decision;
- the dashboard and analytics figures;
- the filtered inventory table, the low-stock alert and the top-stocked chart;
- the per-category chart and the security badge.

The model is one Dafny module per source file, plus shared modules:

- `Wrappers` (`Option`);
- `Seqs`: `filter`, `find`, `map`, a summing `reduce`, `slice`, and a stable insertion sort matching ECMAScript's stable `sort`;
- `Strings`: `includes`, ASCII `toLowerCase`, and the code points `trim` removes;
- `Urls`: the outcome of `new URL(...)`, which is passed in as a parameter;
- `Storage`: the outcome of reading local storage, also a parameter;
- `Grouping`: accumulation into an insertion-ordered dictionary, used by both `clicksByAge` and `categoryData`.

The two stores keep state that the source replaces in place, so they are classes with `seq` fields:

- `UrlShortener.Registry` has `urls`;
- `Inventory.InventoryStore` has `items` and `categories`;
- `UrlForm.FormState` has `generatedCode`.

Their methods are specified against functions of the old state, and the properties are proved about those functions. Three loops in the source are methods with invariants:

- the short-code generator;
- the `forEach`/`reduce` accumulations in `Grouping.GroupSum`;
- the colouring pass in `InventoryViews.CategoryData`.

Everything else is a pure function, specified by `ensures` clauses and by lemmas.

Some behaviour of the code is easy to miss, and the model keeps it as written:

- **No security veto in `addUrl`.** `addUrl` never calls the security service. It only validates the URL, reuses the code of a stored URL, and otherwise appends a new record.
- **Seven categories, no region.** There are seven categories, matched on the hostname with `includes`, and nothing assigns a region. `LocationBadge` imports a `UrlLocation` type that the context does not declare. `UrlList` reads a `securityStatus` field that the record type does not have. The model follows the record type, so a security status reaches the badge only as the badge's own input.
- **Short codes may repeat.** Nothing checks a new short code against the stored ones, so two records may share a code. `GetOriginalUrl` then returns the first of them. For that reason the lookup round trip (`AddThenLookup`) is proved only for a code not already in use.
- **The checkers' keyword sets overlap.** "phish" (PhishTank) occurs inside "phishing" (Google), so such a hostname is flagged twice (`PhishingFlaggedTwice`). The Custom AI list names "verify" twice, so one "verify" alone already counts as two matches (`VerifyAloneIsFlagged`).

## Model

| member | source | states |
|---|---|---|
| UrlSecurity.GoogleSafeBrowsingCheck | src/services/urlSecurityService.ts:20-44 | unsafe exactly when the lowercased hostname contains phishing/malware/suspicious, then threats are ["Suspicious domain detected"]; safe iff no threats; an unparsable URL gives safe=false with ["Unable to verify URL safety"]; the source names the provider |
| UrlSecurity.VirusTotalCheck | src/services/urlSecurityService.ts:51-75 | unsafe exactly when the hostname contains virus/trojan/hack, with ["Potential malware detected"]; safe iff no threats; the unparsable case gives the "Unable to verify" result |
| UrlSecurity.PhishTankCheck | src/services/urlSecurityService.ts:82-106 | unsafe exactly when the hostname contains phish/scam/fake, with ["Potential phishing site detected"]; safe iff no threats; the unparsable case gives the "Unable to verify" result |
| UrlSecurity.CustomAiCheck | src/services/urlSecurityService.ts:113-146 | unsafe exactly when at least two list entries occur in the hostname or the lowercased path, with ["AI model detected suspicious patterns"]; safe iff no threats; the unparsable case gives the "Unable to verify" result |
| UrlSecurity.PhishingFlaggedTwice | src/services/urlSecurityService.ts:86-91 | a hostname containing "phishing" is flagged by both the Google and the PhishTank check |
| UrlSecurity.OnlyVerifyRepeats | src/services/urlSecurityService.ts:121-125 | the pattern list names "verify" at positions 4 and 13, and no other entry twice |
| UrlSecurity.VerifyAloneIsFlagged | src/services/urlSecurityService.ts:121-131 | a URL whose only keyword is "verify" is already unsafe for the Custom AI check |
| UrlSecurity.TwoPatternsAreFlagged | src/services/urlSecurityService.ts:127-131 | any two different list entries occurring in the URL make the Custom AI check unsafe |
| UrlSecurity.SinglePatternIsSafe | src/services/urlSecurityService.ts:127-131 | a URL in which exactly one entry other than "verify" occurs is safe for the Custom AI check |
| UrlSecurity.ChecksIgnoreCase | src/services/urlSecurityService.ts:24-118 | the four verdicts do not depend on the letter case of the hostname or the path, since each provider lower-cases what it inspects |
| UrlSecurity.CheckUrlSafety | src/services/urlSecurityService.ts:151-165 | exactly four results, in the provider order Google, VirusTotal, PhishTank, Custom AI, each safe iff it has no threats |
| UrlSecurity.IsUrlSafe | src/services/urlSecurityService.ts:177-180 | true iff every result is safe (true for no results) |
| UrlSecurity.GetAllThreats | src/services/urlSecurityService.ts:182-185 | the length is the sum of the threat-list lengths; a threat is listed iff some result carries it |
| UrlSecurity.GetAllThreatsAppend | src/services/urlSecurityService.ts:182-185 | flattening distributes over concatenation, so the threats come in result order |
| UrlSecurity.SafeIffNoThreats | src/services/urlSecurityService.ts:177-185 | for results that are safe iff they have no threats, isUrlSafe holds iff getAllThreats is empty |
| UrlSecurity.ServiceVerdictMatchesThreats | src/services/urlSecurityService.ts:158-185 | the service's verdict on any URL, and its catch-branch value, is safe iff no threat is reported |
| UrlSecurity.ServiceVerdictOnParsed | src/services/urlSecurityService.ts:158-165 | on a parsed URL, the service says safe iff no keyword of the three keyword checks occurs and fewer than two patterns match |
| UrlSecurity.ServiceVerdictOnUnparsable | src/services/urlSecurityService.ts:158-165 | an unparsable URL is unsafe, with one "Unable to verify URL safety" per provider |
| UrlShortener.GenerateShortCode | src/context/UrlShortenerContext.tsx:37-45 | returns six characters, each drawn from the 62-character alphabet |
| UrlShortener.ClassifyIsFirstMatchingRule | src/context/UrlShortenerContext.tsx:141-155 | the category is the first rule, in the order News, Social Media, Shopping, Tech, Entertainment, Education, one of whose keywords occurs in the hostname; no earlier rule matches; "Other" only when no rule matches |
| UrlShortener.EarlierRuleWins | src/context/UrlShortenerContext.tsx:143-150 | a hostname containing both "news" and "github" is News |
| UrlShortener.GetOriginalUrl | src/context/UrlShortenerContext.tsx:106-109 | null iff no record has the code; otherwise the URL of the first record with that code |
| UrlShortener.Clicked | src/context/UrlShortenerContext.tsx:111-119 | same length and order; records with the code get one more click and the new last-click time; all others are unchanged |
| UrlShortener.ClicksNeverDecrease | src/context/UrlShortenerContext.tsx:111-119 | a click lowers no count and changes no record's id, URL, code, creation time or category |
| UrlShortener.RepeatedClicks | src/context/UrlShortenerContext.tsx:111-119 | after K clicks on a code, its records have K more clicks and the time of the last click; other records are unchanged |
| UrlShortener.DeleteRemovesExactlyThatId | src/context/UrlShortenerContext.tsx:121-124 | the result holds exactly the records with another id, with their multiplicities, in order; for an absent id it is the list unchanged |
| UrlShortener.Categorized | src/context/UrlShortenerContext.tsx:126-134 | same length and order; only the records with the id get the new category; the rest are unchanged |
| UrlShortener.CategorizedKeepsLinks | src/context/UrlShortenerContext.tsx:126-134 | categorising changes no record's URL or code |
| UrlShortener.AddFreshUrlAppendsOne | src/context/UrlShortenerContext.tsx:87-103 | for a new URL and a fresh id, addUrl appends one record at the end: the given URL and code, no clicks, no last click, and the hostname's category; earlier records are untouched |
| UrlShortener.FreshRecordCategorized | src/context/UrlShortenerContext.tsx:97-100 | categorising the id of the record just appended touches only that record |
| UrlShortener.AddThenLookup | src/context/UrlShortenerContext.tsx:87-109 | looking up the code a fresh addUrl returned gives back its URL, provided the code was not already in use |
| UrlShortener.AddSameUrlTwice | src/context/UrlShortenerContext.tsx:80-85 | submitting a URL a second time returns the first code and adds nothing |
| UrlShortener.AddUrlKeepsUrlsDistinct | src/context/UrlShortenerContext.tsx:80-97 | addUrl adds at most one record and never a second record for a stored URL, so a list without duplicate URLs keeps that property |
| UrlShortener.Registry.constructor | src/context/UrlShortenerContext.tsx:48-64 | starts from the saved records, or from none when nothing is saved or the saved value does not parse |
| UrlShortener.Registry.AddUrl | src/context/UrlShortenerContext.tsx:71-104 | an unparsable URL gives "" and no change; a stored URL gives the first such record's code and no change; otherwise a generated code, with the record appended and then categorised |
| UrlShortener.Registry.RecordClick | src/context/UrlShortenerContext.tsx:111-119 | the new list is the clicked list of the old one |
| UrlShortener.Registry.DeleteUrl | src/context/UrlShortenerContext.tsx:121-124 | the new list is the old one without the records with that id |
| UrlShortener.Registry.CategorizeUrl | src/context/UrlShortenerContext.tsx:126-134 | the new list is the old one with that id's category replaced |
| UrlShortener.Registry.AnalyzeUrl | src/context/UrlShortenerContext.tsx:136-166 | a parsed URL recategorises the record from its hostname; an unparsable URL changes nothing |
| Inventory.DefaultCategoriesShape | src/types/inventory.ts:12-19 | six default categories, pairwise distinct, the last being "Other" |
| Inventory.NewItem | src/context/InventoryContext.tsx:73-81 | the new item carries the supplied fields and the fresh id, and createdAt == updatedAt == now |
| Inventory.Merge | src/context/InventoryContext.tsx:85-92 | supplied fields are overwritten and unsupplied ones kept; id and createdAt are preserved; updatedAt is the current time |
| Inventory.MergeComposes | src/context/InventoryContext.tsx:85-92 | two updates equal one update with the combined patch, the later patch winning field by field; an empty patch only refreshes updatedAt |
| Inventory.MergeIdempotent | src/context/InventoryContext.tsx:85-92 | applying a patch again changes nothing but updatedAt |
| Inventory.Updated | src/context/InventoryContext.tsx:85-92 | same length and order; items with the id are merged; the others are unchanged |
| Inventory.UpdateKeepsIdentity | src/context/InventoryContext.tsx:85-92 | every item keeps its id and creation time; an absent id changes nothing |
| Inventory.DeleteItemRemovesExactlyThatId | src/context/InventoryContext.tsx:96-99 | the result holds exactly the items with another id, with their multiplicities, in order; for an absent id it is the list unchanged |
| Inventory.InventoryStore.constructor | src/context/InventoryContext.tsx:31-61 | items fall back to none and categories to the defaults when nothing is saved or the saved value does not parse |
| Inventory.InventoryStore.AddItem | src/context/InventoryContext.tsx:73-83 | appends exactly the new item at the end; the categories are unchanged |
| Inventory.InventoryStore.UpdateItem | src/context/InventoryContext.tsx:85-94 | the new items are the updated old ones; the categories are unchanged |
| Inventory.InventoryStore.DeleteItem | src/context/InventoryContext.tsx:96-99 | the new items are the old ones without that id; the categories are unchanged |
| Inventory.InventoryStore.AddCategory | src/context/InventoryContext.tsx:101-108 | appends the category iff it is not present, otherwise no change; a duplicate-free list stays duplicate-free |
| UrlForm.NormalizeIdempotent | src/components/UrlForm.tsx:23-26 | normalised input always passes the scheme test; normalising twice equals normalising once; input is passed through unchanged iff it has an http/https scheme |
| UrlForm.HttpsPrefixHasScheme | src/components/UrlForm.tsx:24-25 | "https://" + anything passes the `^https?://` test |
| UrlForm.UpperCaseSchemeKept | src/components/UrlForm.tsx:24 | the scheme test ignores case: "HTTPS://x" is passed through |
| UrlForm.OtherSchemesArePrefixed | src/components/UrlForm.tsx:24-26 | "ftp://x" becomes "https://ftp://x" |
| UrlForm.FormState.constructor | src/components/UrlForm.tsx:12 | no code is shown initially |
| UrlForm.FormState.HandleSubmit | src/components/UrlForm.tsx:15-32 | blank input (by trim) reaches no addUrl and changes nothing; otherwise the untrimmed, normalised input is handed to addUrl, and the shown code is replaced only by a non-empty result |
| Redirect.Decide | src/pages/Redirect.tsx:11-29 | exactly one of three outcomes: home iff the code is missing or empty; the original URL when the lookup finds a non-empty one; otherwise not-found |
| Redirect.RunRedirect | src/pages/Redirect.tsx:11-29 | picks the decided outcome; records one click for the code only when it sends the browser on; otherwise leaves the records unchanged |
| Redirect.ShortenThenFollow | src/pages/Redirect.tsx:17-24 | following the code a fresh addUrl returned leads to the added URL, if the code was not in use |
| Dashboard.TotalClicks | src/pages/Dashboard.tsx:12 | the sum of all clicks, never negative |
| Dashboard.ClickRaisesTotal | src/pages/Dashboard.tsx:12-13 | a recordClick raises the total by the number of records with that code and keeps the number of links |
| Dashboard.HeavierStep | src/pages/Dashboard.tsx:15 | one reduce step keeps the "last maximum" property |
| Dashboard.ReduceHeavier | src/pages/Dashboard.tsx:15 | the reduce with strict `>` returns an entry with maximal clicks, after which every entry has fewer |
| Dashboard.MostClicked | src/pages/Dashboard.tsx:14-16 | null iff there are no links; otherwise a link with maximal clicks, the last of those that tie |
| Dashboard.LaterOfEqualsWins | src/pages/Dashboard.tsx:15 | of two links with equal clicks the later is reported |
| Analytics.TopUrlsAreOrdered | src/pages/Analytics.tsx:12-13 | min(5, n) links, in non-increasing click order, taken from the list |
| Analytics.TopUrlsDominateTheRest | src/pages/Analytics.tsx:12-13 | every link left out has no more clicks than any link shown |
| Analytics.SortedUrlsStable | src/pages/Analytics.tsx:12 | links with equal clicks keep their list order in the sorted copy |
| Analytics.BarChartData | src/pages/Analytics.tsx:16-20 | one bar per top link, same order, with its code, clicks and URL |
| Analytics.AgeOf | src/pages/Analytics.tsx:27-30 | whole days elapsed, rounded down: under 1 is Today, under 7 is This Week, under 30 is This Month, else Older (each as a range of milliseconds) |
| Analytics.ClicksByAge | src/pages/Analytics.tsx:26-35 | the accumulated buckets, in insertion order, each with its links' click total |
| Analytics.ClicksByAgeAccountsForAll | src/pages/Analytics.tsx:26-37 | bucket totals sum to totalClicks; each bucket appears once, and only when some link falls into it |
| Analytics.LatestCreated | src/pages/Analytics.tsx:143-149 | nothing ("No URLs yet") iff there are no links; otherwise the maximum creation time, which some link has |
| Grouping.GroupSum | src/components/CategoryDistributionChart.tsx:13-22 | the map-filling loop yields one entry per key, in first-appearance order, with the sum of its values |
| Grouping.KeysAreTheDistinctKeys | src/components/CategoryDistributionChart.tsx:16-19 | the keys are distinct, and a key is listed iff some element has it |
| Grouping.GroupsSumToTotal | src/components/CategoryDistributionChart.tsx:16-19 | the group totals add up to the overall sum |
| InventoryViews.FilteredItemsAreTheMatches | src/components/InventoryTable.tsx:39-43 | an item is shown iff its lowercased name contains the lowercased term and the filter is "all" or its category; the order is kept |
| InventoryViews.EmptySearchShowsAll | src/components/InventoryTable.tsx:39-43 | an empty term with the "all" filter shows every item |
| InventoryViews.Body | src/components/InventoryTable.tsx:101-118 | the "No items found" row iff nothing matches; otherwise one row per item, with the Low Stock badge iff quantity <= 5 |
| InventoryViews.LowStockItemsAreTheLowOnes | src/components/LowStockItems.tsx:12-14 | exactly the items with quantity <= 5, each as often as in the inventory, in ascending quantity order |
| InventoryViews.LowStockView | src/components/LowStockItems.tsx:21-31 | "No low stock items" iff every quantity exceeds 5; otherwise a badge whose count is the (non-zero) number of listed items |
| InventoryViews.TruncateIsStable | src/components/TopItems.tsx:15 | a shortened name: at most 15 characters, starting with the name's first 12, unchanged by shortening it again |
| InventoryViews.TopItems | src/components/TopItems.tsx:14-18 | one entry per top item: the full name kept as fullName, the shortened name, and the quantity |
| InventoryViews.TopItemsAreOrdered | src/components/TopItems.tsx:11-13 | min(5, n) entries in non-increasing quantity order, taken from the inventory |
| InventoryViews.TopItemsDominateTheRest | src/components/TopItems.tsx:11-13 | every item left out has quantity <= every item shown |
| InventoryViews.TopItemsEmptyIffNoItems | src/components/TopItems.tsx:21-31 | the no-data view appears iff there are no items |
| InventoryViews.Colored | src/components/CategoryDistributionChart.tsx:22-26 | entry i keeps its name and value and gets COLORS[i mod 6] |
| InventoryViews.CategoryData | src/components/CategoryDistributionChart.tsx:12-27 | the grouped per-category totals, coloured in order |
| InventoryViews.CategoryDataIsThePerCategoryTotal | src/components/CategoryDistributionChart.tsx:13-40 | one entry per category present, once each, in first-appearance order, even when the sum is 0; each value is its items' quantity sum; values sum to the total quantity; no entries (the no-data view) iff no items |
| SecurityBadge.ShownThreats | src/components/SecurityBadge.tsx:61 | the non-empty threats of all results, in order, each as often as it occurs; the empty threat is dropped |
| SecurityBadge.BadgeOf | src/components/SecurityBadge.tsx:21-61 | Not Checked iff there is no status; Safe iff the stored flag says so, with one "<source>: No threats detected" line per result; otherwise Unsafe with the shown threats |
| SecurityBadge.ProviderThreatsNonEmpty | src/services/urlSecurityService.ts:31-43 | every threat a provider reports is a non-empty string |
| SecurityBadge.BadgeOfOwnVerdict | src/components/SecurityBadge.tsx:31-61 | when the flag is the results' own verdict, the badge is Safe iff there are no threats, and Unsafe lists them all |
| SecurityBadge.ServiceBadge | src/components/SecurityBadge.tsx:31-61 | the same for the security service's own results on any URL |
| Seqs.SortBy | src/pages/Analytics.tsx:12 | the sorted copy is a permutation of the input, ordered by the key |
| Seqs.SortByStable | src/components/LowStockItems.tsx:14 | sorting keeps elements with equal keys in their original order, as ECMAScript's sort does |
| Seqs.FirstIndex | src/context/UrlShortenerContext.tsx:81 | `find`: none iff no element qualifies; otherwise the first one that does |

## Left out

- Local storage reads and writes, and JSON/Date revival, are I/O. Only the fallback rule is kept: `Storage.Stored` says whether something was saved and whether it parses.
- Several calls are UI side effects: `toast`, `console`, `window.confirm`, the clipboard, `setTimeout`, `navigate` and the assignment to `window.location.href`. The model keeps only which outcome is chosen (`Redirect.Navigation`, `AddCategory`'s `added`).
- `Math.random` is a nondeterministic choice in `GenerateShortCode`. `uuidv4()` and `new Date()` are parameters (`id`, `now`, as integer milliseconds).
- WHATWG URL parsing is library behaviour. It becomes a parameter: `Urls.UrlParse`, holding a hostname and a path, or a failure.
- `Strings.ToLower`: only ASCII letters are lowered, as a stand-in for `toLowerCase`. This matches the case-insensitive scheme regex exactly, since it has no `u` flag. It differs from JavaScript for non-ASCII names in the inventory search.
- The security service is `async` with `Promise.all`. Its providers are evaluated in order, since none of them awaits anything. No provider throws, so the catch branch (`ServiceFailure`) is only a value the lemmas talk about.
- React state batching and the stale read of `urls` are not modelled. Every operation acts on the current state, one after the other. `addUrl` therefore appends and then categorises right away, because `analyzeUrl` runs synchronously up to `categorizeUrl`.
- Floating point is left out:
  - the average clicks with `toFixed`;
  - the pie percentages;
  - currency formatting and price × quantity.
- Analytics.AgeOf: it uses exact integer floor division of the elapsed milliseconds. It does not model the rounding of JavaScript's floating-point division.
- Pure presentation is not modelled: CategoryBadge, LocationBadge, Layout, the routes, NotFound, the Inventory page, UrlList, and the chart components. Neither is the analytics page's own five-colour list, which colours the bars and the pie slices.
- UrlShortener.GenerateShortCode: its contract says each character is drawn from the 62-character alphabet string. It does not prove that this string is exactly A–Z, a–z and 0–9.
- UrlShortener.Classify: it reads the hostname as given, with no lowercasing, as the source does.
- InventoryViews.Truncate: lengths are counted in Unicode characters, not in the UTF-16 code units that `length` and `substring` count. Names with characters outside the Basic Multilingual Plane are therefore cut at a different place than in the source.
- Inventory.Merge: a patch cannot express a key that is present with the value `undefined`, which the spread would copy. A field is either supplied or not.
- Quantities are integers and clicks are natural numbers. Prices are reals and take part in no computation.
- `LOW_STOCK_THRESHOLD` (src/types/inventory.ts:21) is `Inventory.LowStockThreshold = 5`. The contracts of `InventoryViews.Body` and `InventoryViews.LowStockView` state the bound as 5.
- `totalUrls` (src/pages/Dashboard.tsx:13) is `Dashboard.TotalUrls`, the length of the list. It needs no contract of its own.
