# Payroll-Onboarding test-suite core, modelled in Dafny

The Payroll-Onboarding suite is an end-to-end browser test suite. Most of it
forwards calls to Playwright. This project models the parts that carry logic
of their own, and proves what that logic promises:

- **The bounded-retry element accessor** (`utils/ElementHelper.js`).
  `clickWithRetry`, `fillWithRetry` and `getTextWithRetry` are counter-driven
  loops. Each attempt waits for visibility and then acts. A failed attempt
  pauses 1000 ms if attempts remain. When the attempts run out, the accessor
  throws one aggregated error. `exists` is a single count query.
- **The page objects** (`pages/ProfilesListPage.js`, `pages/ProfilePage.js`,
  `pages/DashboardPage.js`). They provide:
  - guarded reads that answer `''` when the element is absent;
  - click-then-settle sequences;
  - navigation helpers that report whether they clicked;
  - the search sequence;
  - `clickTab`'s dispatch on a string or a number;
  - collect loops that keep the trimmed `textContent` of every match.
- **The pure lookups.** These cover:
  - the browser configurations, the selector table and the wait times (`utils/CrossBrowserHelper.js`);
  - the environment URL table, timeouts and screenshot settings (`utils/TestConfig.js`);
  - random strings and date formatting (`utils/Utils.js`).

## How the browser is represented

The browser page is abstract (module `Browser`):

- **The document snapshot.** It maps each selector string to the elements it
  matches, in document order. Each element has a visibility flag, an
  `innerText` and an optional `textContent`.
- **The event log.** A ghost log records every observable side effect in
  order: waits, actions, pauses, direct `nth(i)` clicks, key presses, load
  waits and console messages.
- **The outcome oracle.** It decides per attempt whether a fault the snapshot
  cannot explain happens: a wait that times out anyway, or an action that is
  rejected.

The retry methods (`ElementHelper.ElementHelper.ClickWithRetry` and its
siblings) are imperative loops. Each is proved against the recursive
specification `ElementHelper.RetryFrom`. Each page-object method is proved
against a function in `PageFlows` or in its own module, and the properties the
source promises are lemmas about those functions. Per-call durations become
counts of events (`Browser.Tally`).

## Model

| member | source | states |
|---|---|---|
| `Browser.TallyAppend` | utils/ElementHelper.js:28-44 | Event counts of two consecutive stretches of a run add up; every count of waits, pauses and clicks below rests on this. |
| `Browser.TallyBounds` | utils/ElementHelper.js:28-44 | A count of events is at most the length of the log. It is 0 exactly when no event is of that kind, and the full length exactly when every event is. |
| `ElementHelper.WaitRequestDefaults` | utils/ElementHelper.js:18-20 | With options omitted, `waitForElement` waits 5000 ms for state `visible`. A caller's `state` and `timeout` fields each override their default, field by field. |
| `ElementHelper.Verb` | utils/ElementHelper.js:38 | The verb of each helper's exhaustion message: `click`, `fill` (line 62) and `get text from` (line 95). `RetryStepThrows` and `RetryExhausts` show where it appears. |
| `ElementHelper.ExhaustedMessage` | utils/ElementHelper.js:38 | The one error thrown once the attempts run out: "Failed to <verb> element <selector> after <retries> attempts: <last error>". `RetryExhaustsFrom` proves that the last attempt's error is the one quoted. |
| `ElementHelper.RetryFrom` | utils/ElementHelper.js:28-44 | The retry loop as a recursion over the attempt counter, started after `attempts` failures. The retry methods are proved equal to it, and `RetryFromCounts`, `RetryFromEndsWithSuccess`, `RetrySucceedsFrom`, `RetryExhaustsFrom`, `RetrySleepsOnlyBeforeAnAttempt` and `RetryStaysOnTarget` state what it does. |
| `ElementHelper.RetryRun` | utils/ElementHelper.js:28-44 | A whole call, from zero failed attempts. `RetryNeverRuns`, `RetrySucceedsOnAttempt` and `RetryExhausts` state its outcomes. |
| `ElementHelper.ElementHelper.constructor` | utils/ElementHelper.js:8-10 | The accessor is bound to the page it is given. |
| `ElementHelper.ElementHelper.WaitForElement` | utils/ElementHelper.js:18-21 | Logs exactly one wait, with the merged state and timeout. It returns the locator when the wait passes and the wait's error otherwise. |
| `ElementHelper.ElementHelper.Attempt` | utils/ElementHelper.js:31-34 | One attempt waits for visibility with the caller's timeout, then acts. Its events and result are those of `AttemptEvents` and `AttemptResult`. |
| `ElementHelper.AttemptTallies` | utils/ElementHelper.js:31-34 | One attempt starts with its wait, waits exactly once and never pauses. It logs a successful action exactly when it succeeds, and that action is its last event. |
| `ElementHelper.TallyStep` | utils/ElementHelper.js:35-42 | A failed attempt followed by the pause and the rest of the loop adds exactly one pause to the counts. |
| `ElementHelper.RetryFromUnfold` | utils/ElementHelper.js:30-43 | One turn of the loop: return on success; on failure, throw the aggregated error if no attempt remains, otherwise pause and go on. |
| `ElementHelper.ElementHelper.ClickWithRetry` | utils/ElementHelper.js:28-44 | The loop's result and its log extension are exactly those of the retry specification for a click. |
| `ElementHelper.ElementHelper.FillWithRetry` | utils/ElementHelper.js:52-68 | Same as for a click, for `fill(value)`, with `value` passed through unchanged. |
| `ElementHelper.ElementHelper.GetTextWithRetry` | utils/ElementHelper.js:86-101 | Same as for a click, for `innerText()`. The successful attempt's value is returned. |
| `ElementHelper.ElementHelper.Exists` | utils/ElementHelper.js:75-78 | True exactly when the selector matches something. It logs nothing: no wait, no retry, no error. |
| `ElementHelper.RetryStepReturns` | utils/ElementHelper.js:31-34 | A turn whose attempt succeeds leaves only that attempt to do, and the call returns the attempt's result. |
| `ElementHelper.RetryStepThrows` | utils/ElementHelper.js:36-39 | A failed last attempt ends the call with "Failed to <verb> element <selector> after <retries> attempts: <message>". |
| `ElementHelper.RetryStepContinues` | utils/ElementHelper.js:36-41 | A failed attempt with attempts left is followed by one 1000 ms pause and then by the rest of the loop. |
| `ElementHelper.RetryFromCounts` | utils/ElementHelper.js:29-43 | A call with attempts left waits 1 to `retries` times and pauses exactly once less. It never waits for a load. It logs one successful action if it returns and none if it throws, and a throwing call has used every attempt. |
| `ElementHelper.RetryFromEndsWithSuccess` | utils/ElementHelper.js:31-34 | A call that returns has the successful action as its last event, so nothing follows it. It returns that action's value: `innerText` for a read, `undefined` otherwise. |
| `ElementHelper.RetryNeverRuns` | utils/ElementHelper.js:28-30 | With `retries` absent, zero or negative, the loop never runs: no event, no error, result `undefined`. |
| `ElementHelper.RetrySucceedsFrom` | utils/ElementHelper.js:29-42 | If attempts `a..k-1` fail and attempt `k` succeeds, the call from `a` returns the success value after `k-a+1` waits and `k-a` pauses. |
| `ElementHelper.RetrySucceedsOnAttempt` | utils/ElementHelper.js:29-42 | If attempt `k` is the first to succeed, the call returns its value after `k+1` waits and `k` pauses. Exactly one successful action happens, and it is the last event. |
| `ElementHelper.RetryExhaustsFrom` | utils/ElementHelper.js:36-39 | When every remaining attempt fails, the error is the aggregated message built from the last attempt's error. |
| `ElementHelper.RetryExhausts` | utils/ElementHelper.js:36-41 | If every attempt fails, exactly `retries` waits and `retries-1` pauses happen, no action succeeds, and one error is thrown. |
| `ElementHelper.PausesPrecedeWaitsJoin` | utils/ElementHelper.js:40-41 | Joining a pause-free attempt, a pause and a run that starts with a wait keeps every pause directly before a wait. |
| `ElementHelper.RetryFromStartsWithWait` | utils/ElementHelper.js:32 | A call with attempts left begins with the visibility wait, carrying the caller's timeout. |
| `ElementHelper.RetrySleepsOnlyBeforeAnAttempt` | utils/ElementHelper.js:37-41 | Every pause lasts 1000 ms and is directly followed by another attempt's wait. No pause follows the last attempt. |
| `ElementHelper.AttemptOnTarget` | utils/ElementHelper.js:32-33 | One attempt logs only a visibility wait on its selector with the caller's timeout, and the requested action on the same selector. |
| `ElementHelper.RetryStaysOnTarget` | utils/ElementHelper.js:52-58 | Every event of a retry call is a visibility wait on its own selector with the caller's timeout, an action on that selector, or a 1000 ms pause. The action is the requested one, so `fill` gets `value` unchanged. |
| `PageFlows.GuardedRead` | pages/ProfilesListPage.js:38-43 | `count() > 0 ? getTextWithRetry(sel) : ''`. `GuardedReadAnswers`, `GuardedReadNeverVisible` and `GuardedReadFirstTry` state its outcomes. |
| `PageFlows.ClickThenLoad` | pages/DashboardPage.js:48-51 | A retried click, then the `networkidle` load wait only if the click returned. `ClickThenLoadOrder` states the order. |
| `PageFlows.NavigateIfPresent` | pages/ProfilesListPage.js:96-116 | A click-then-load only when the button matches, answering whether it clicked. `NavigateIfPresentAnswers` states both answers. |
| `PageFlows.SearchFlow` | pages/ProfilesListPage.js:60-68 | The console message when the input is absent; otherwise a retried fill, then Enter, then the load wait. `SearchFlowOrder` states the order. |
| `PageFlows.NthClickThenLoad` | pages/ProfilesListPage.js:124-125 | One direct `nth(index)` click, then the load wait if it succeeded. `NthClickThenLoadOnce` states it. |
| `PageFlows.ClickItemIfPresent` | pages/ProfilesListPage.js:122-127 | The direct click, only when some item matches. `ClickItemIfPresentGuard` states the guard. |
| `PageFlows.GuardedCollect` | pages/ProfilesListPage.js:133-143 | `[]` when the guard matches nothing, otherwise the collected texts of the items. `GuardedCollectAbsent` states both cases. |
| `PageFlows.GuardedReadAnswers` | pages/ProfilesListPage.js:38-43 | A guarded read does nothing and answers `''` exactly when the element is absent. Otherwise any answer is the element's `innerText`, never `undefined`. |
| `PageFlows.GuardedReadNeverVisible` | pages/DashboardPage.js:38-43 | An element that matches but is never visible passes the guard. The read then throws the aggregated error after 3 waits and 2 pauses. Every wait is for visibility, with a 5000 ms timeout. |
| `PageFlows.GuardedReadFirstTry` | pages/DashboardPage.js:73-78 | A visible element read on the first try answers its `innerText` untrimmed, after one wait and one read. |
| `PageFlows.ClickThenLoadOrder` | pages/DashboardPage.js:48-51 | An exhausted click propagates its error before any load wait. Otherwise exactly one load wait ends the run, directly after the one successful click. |
| `PageFlows.NavigateIfPresentAnswers` | pages/ProfilesListPage.js:96-116 | Answers `false` and does nothing exactly when the button is absent. `true` means one successful click followed by one load wait. |
| `PageFlows.SearchFlowOrder` | pages/ProfilesListPage.js:60-68 | Without an input, only the console message is logged. Otherwise the order is fill(text), then Enter, then the load wait. A failed fill presses nothing and waits for no load. |
| `PageFlows.NthClickThenLoadOnce` | pages/ProfilesListPage.js:124-125 | A direct `nth(index)` click never waits or retries. It is followed by one load wait exactly when the element at that index is clickable. |
| `PageFlows.ClickItemIfPresentGuard` | pages/ProfilesListPage.js:122-127 | With no items, nothing happens. Otherwise the first event is the direct click on item `index`. |
| `PageFlows.CollectTexts` | pages/ProfilesListPage.js:133-143 | The collected list is never longer than the list of items. |
| `PageFlows.CollectTextsAppend` | pages/ProfilesListPage.js:137-140 | Collecting over two runs of items gives the two collected lists, concatenated in order. |
| `PageFlows.CollectTextsLength` | pages/ProfilesListPage.js:139 | One entry per item whose `textContent` is non-null and non-empty: the filter runs before the trim. |
| `PageFlows.CollectTextsPointwise` | pages/ProfilesListPage.js:137-140 | When every item has text, entry `i` is the trimmed `textContent` of item `i`. |
| `PageFlows.CollectTextsSkipsEmpty` | pages/ProfilesListPage.js:139 | Items whose `textContent` is null or `''` contribute nothing. |
| `PageFlows.WhitespaceItemGivesEmptyEntry` | pages/ProfilesListPage.js:139 | A whitespace-only `textContent` is kept, because it is truthy, and it contributes `''`. |
| `PageFlows.GuardedCollectAbsent` | pages/ProfilePage.js:50-60 | A collect whose guard matches nothing is `[]`. Otherwise its length is the number of items with text, never more than the number of items. |
| `ProfilesListPage.ProfilesListPage.constructor` | pages/ProfilesListPage.js:8-24 | The page object and its accessor drive the same page. |
| `ProfilesListPage.ProfilesListPage.IsProfilesListLoaded` | pages/ProfilesListPage.js:30-32 | True exactly when the list selector matches. |
| `ProfilesListPage.ProfilesListPage.GetProfilesListTitle` | pages/ProfilesListPage.js:38-43 | The guarded read of the title. |
| `ProfilesListPage.ProfilesListPage.GetProfileItemsCount` | pages/ProfilesListPage.js:49-54 | The number of matching items; 0 exactly when none match. |
| `ProfilesListPage.ProfilesListPage.SearchProfiles` | pages/ProfilesListPage.js:60-68 | Result and log extension are those of the search flow. |
| `ProfilesListPage.ProfilesListPage.ClickFilterButton` | pages/ProfilesListPage.js:73-75 | One retried click on the filter button, nothing else. |
| `ProfilesListPage.ProfilesListPage.ClickSortButton` | pages/ProfilesListPage.js:80-82 | One retried click on the sort button, nothing else. |
| `ProfilesListPage.ProfilesListPage.IsPaginationVisible` | pages/ProfilesListPage.js:88-90 | True exactly when the pagination selector matches. |
| `ProfilesListPage.ProfilesListPage.GoToNextPage` | pages/ProfilesListPage.js:96-103 | Result and log extension are those of the guarded navigation on the next-page button. |
| `ProfilesListPage.ProfilesListPage.GoToPreviousPage` | pages/ProfilesListPage.js:109-116 | Result and log extension are those of the guarded navigation on the previous-page button. |
| `ProfilesListPage.ProfilesListPage.ClickProfileItem` | pages/ProfilesListPage.js:122-127 | Result and log extension are those of the guarded direct click. |
| `ProfilesListPage.ProfilesListPage.GetProfileItemsText` | pages/ProfilesListPage.js:133-143 | The loop builds exactly the collected texts of the items, `[]` when none match. |
| `ProfilesListPage.ProfilesListPage.IsSearchInputVisible` | pages/ProfilesListPage.js:149-151 | True exactly when the search input matches. |
| `ProfilePage.ClickTabFlow` | pages/ProfilePage.js:66-73 | The dispatch of `clickTab` on a string or a number, then the load wait. `ClickTabByName` and `ClickTabByIndex` state each branch. |
| `ProfilePage.TabSelector` | pages/ProfilePage.js:68 | The composed locator is `tabItems` followed by `:has-text("<name>")`, with the name unchanged. |
| `ProfilePage.ClickTabByName` | pages/ProfilePage.js:67-68 | A tab name makes a retried click on the composed selector and never clicks by index. A completed click is directly followed by exactly one load wait. |
| `ProfilePage.ClickTabByIndex` | pages/ProfilePage.js:69-72 | A tab index makes one direct click on the tab at that index, with no wait or pause. Exactly one load wait follows when it succeeds. |
| `ProfilePage.ProfilePage.constructor` | pages/ProfilePage.js:8-25 | The page object and its accessor drive the same page. |
| `ProfilePage.ProfilePage.IsProfilePageLoaded` | pages/ProfilePage.js:31-33 | True exactly when the details selector matches. |
| `ProfilePage.ProfilePage.GetProfileTitle` | pages/ProfilePage.js:39-44 | The guarded read of the title. |
| `ProfilePage.ProfilePage.GetAvailableTabs` | pages/ProfilePage.js:50-60 | The loop builds exactly the collected texts of the tabs, `[]` when none match. |
| `ProfilePage.ProfilePage.ClickTab` | pages/ProfilePage.js:66-73 | The string/number dispatch: result and log extension are those of `ClickTabFlow`. |
| `ProfilePage.ProfilePage.ClickEdit` | pages/ProfilePage.js:78-81 | Click-then-settle on the edit button. |
| `ProfilePage.ProfilePage.ClickSave` | pages/ProfilePage.js:86-89 | Click-then-settle on the save button. |
| `ProfilePage.ProfilePage.ClickCancel` | pages/ProfilePage.js:94-97 | Click-then-settle on the cancel button. |
| `ProfilePage.ProfilePage.IsVersionHistoryVisible` | pages/ProfilePage.js:103-105 | True exactly when the version-history selector matches. |
| `ProfilePage.ProfilePage.IsChildProfilesVisible` | pages/ProfilePage.js:111-113 | True exactly when the child-profiles selector matches. |
| `ProfilePage.ProfilePage.IsDocumentsSectionVisible` | pages/ProfilePage.js:119-121 | True exactly when the documents selector matches. |
| `ProfilePage.ProfilePage.GetProfileDetailsText` | pages/ProfilePage.js:127-132 | The guarded read of the details. |
| `ProfilePage.ProfilePage.IsEditModeActive` | pages/ProfilePage.js:138-140 | True exactly when a save button exists. |
| `DashboardPage.LinksSelector` | pages/DashboardPage.js:125 | The link locator is the sidebar selector followed by ` a`, and nothing else. |
| `DashboardPage.SidebarLinksGuard` | pages/DashboardPage.js:122-133 | `[]` when the sidebar matches nothing. Otherwise the collected texts of the composed locator's matches, never more of them than there are links. |
| `DashboardPage.DashboardPage.constructor` | pages/DashboardPage.js:8-24 | The page object and its accessor drive the same page. |
| `DashboardPage.DashboardPage.IsDashboardLoaded` | pages/DashboardPage.js:30-32 | True exactly when the title exists. |
| `DashboardPage.DashboardPage.GetDashboardTitle` | pages/DashboardPage.js:38-43 | The guarded read of the title. |
| `DashboardPage.DashboardPage.NavigateToProfiles` | pages/DashboardPage.js:48-51 | Click-then-settle on the profiles link. |
| `DashboardPage.DashboardPage.NavigateToSettings` | pages/DashboardPage.js:56-59 | Click-then-settle on the settings link. |
| `DashboardPage.DashboardPage.NavigateToRecycleBin` | pages/DashboardPage.js:64-67 | Click-then-settle on the recycle-bin link. |
| `DashboardPage.DashboardPage.GetUserRole` | pages/DashboardPage.js:73-78 | The guarded read of the role label. |
| `DashboardPage.DashboardPage.Logout` | pages/DashboardPage.js:83-86 | Click-then-settle on the logout button. |
| `DashboardPage.DashboardPage.GetPayflowsCount` | pages/DashboardPage.js:92-97 | The guarded read of the payflows counter. |
| `DashboardPage.DashboardPage.GetUsersCount` | pages/DashboardPage.js:103-108 | The guarded read of the users counter. |
| `DashboardPage.DashboardPage.IsSidebarVisible` | pages/DashboardPage.js:114-116 | True exactly when the sidebar exists. |
| `DashboardPage.DashboardPage.GetSidebarLinks` | pages/DashboardPage.js:122-133 | The loop builds exactly the guarded collect over `${sidebarMenu} a`. |
| `CrossBrowserHelper.GetBrowserConfig` | utils/CrossBrowserHelper.js:10-45 | The base configuration, extended for the lower-cased browser name. `BrowserConfigKeepsBase`, `BrowserConfigDefault`, `BrowserConfigExtras` and `BrowserConfigIgnoresCase` state what it yields. |
| `CrossBrowserHelper.GetBrowserSpecificSelectors` | utils/CrossBrowserHelper.js:52-101 | The selector table lookup with the three-empty-strings default. `SelectorTableShape` and `SelectorLookupIsCaseSensitive` state what it yields. |
| `CrossBrowserHelper.GetBrowserWaitTimes` | utils/CrossBrowserHelper.js:108-131 | The base wait times, overridden for Firefox and WebKit. `WaitTimesOrdered` and `WaitTimesIgnoreCase` state what it yields. |
| `CrossBrowserHelper.BrowserConfigKeepsBase` | utils/CrossBrowserHelper.js:11-17 | Every configuration has viewport 1280x720, the three flags set and timeout 60000. |
| `CrossBrowserHelper.BrowserConfigDefault` | utils/CrossBrowserHelper.js:20-44 | The result is exactly the base configuration if and only if the lower-cased name is none of `chromium`, `firefox` and `webkit`. |
| `CrossBrowserHelper.BrowserConfigExtras` | utils/CrossBrowserHelper.js:21-41 | What each browser adds to the base, and nothing more: Chromium gets the two launch arguments; Firefox gets both cache preferences off; WebKit gets touch on, mobile off and the light colour scheme. |
| `CrossBrowserHelper.BrowserConfigIgnoresCase` | utils/CrossBrowserHelper.js:20 | The configuration depends only on the lower-cased browser name. |
| `CrossBrowserHelper.SelectorTableShape` | utils/CrossBrowserHelper.js:53-100 | For the seven known names, Chromium and Firefox agree and WebKit's selector list extends theirs. Any other name gets three empty selectors. |
| `CrossBrowserHelper.SelectorLookupIsCaseSensitive` | utils/CrossBrowserHelper.js:96-100 | `username` is known, while `Username` gets the empty default. |
| `CrossBrowserHelper.WaitTimesOrdered` | utils/CrossBrowserHelper.js:108-131 | Each wait of WebKit is at least Firefox's, which is at least the base. Every browser lies between the two bounds, and Chromium gets the base times. |
| `CrossBrowserHelper.WaitTimesIgnoreCase` | utils/CrossBrowserHelper.js:115 | The wait times depend only on the lower-cased browser name. |
| `TestConfig.GetBaseUrl` | utils/TestConfig.js:10-17 | The URL table lookup, with `dev` as the default environment and the dev URL as the fallback. `BaseUrlLookup`, `BaseUrlExactMatch` and `BaseUrlIsSecure` state what it yields. |
| `TestConfig.BaseUrlLookup` | utils/TestConfig.js:10-17 | `dev`, `staging` and `prod` map to their URLs, and an omitted environment is `dev`. Any other name, including `PROD`, falls back to the dev URL. |
| `TestConfig.BaseUrlExactMatch` | utils/TestConfig.js:11-16 | The production URL is returned if and only if the environment is exactly `prod`. Likewise for `staging`. |
| `TestConfig.BaseUrlIsSecure` | utils/TestConfig.js:12-14 | Every returned URL starts with `https://` and ends with `app.payrollstandard.org`. |
| `TestConfig.GetTimeouts` | utils/TestConfig.js:23-29 | Navigation > element > animation > 0. |
| `TestConfig.GetScreenshotConfig` | utils/TestConfig.js:35-40 | Screenshots are taken on failure. |
| `Utils.AlphabetIsAlphanumeric` | utils/Utils.js:11 | The alphabet has 62 characters, each an ASCII letter or digit. |
| `Utils.RandomStringLength` | utils/Utils.js:10-13 | Length 8 by default, 0 for a length of at most 0, and the given length otherwise. |
| `Utils.GenerateRandomString` | utils/Utils.js:10-17 | The result has the expected length; character `i` is the alphabet character drawn on turn `i`, so every character is alphanumeric. |
| `Utils.FormatDate` | utils/Utils.js:34-43 | The year, the one-based month and the day, substituted into the format (`YYYY-MM-DD` when omitted). `DefaultFormatShape` and `OnlyFirstTokenReplaced` state what it yields. |
| `Utils.Substitute` | utils/Utils.js:39-42 | The three chained `replace` calls, `YYYY`, then `MM`, then `DD`. `DefaultFormatYear`, `DefaultFormatMonth`, `DefaultFormatDay` and `DayOnlyFormat` state what they yield. |
| `Utils.TwoDigitsValue` | utils/Utils.js:36-37 | Below 100, the padded form is exactly two decimal digits that read back as the number. |
| `Utils.MonthAndDayDigits` | utils/Utils.js:36-37 | The month, written as `getMonth() + 1`, and the day are each two digits that read back as their values. |
| `Utils.IntToStringChars` | utils/Utils.js:35 | The unpadded year contains only digits and possibly a minus sign, so it holds no `M` or `D` for a later replacement to hit. |
| `Utils.DefaultFormatYear` | utils/Utils.js:40 | In the default format, the year replaces the leading `YYYY`. |
| `Utils.DefaultFormatMonth` | utils/Utils.js:41 | The month replaces the first `MM` after the year. |
| `Utils.DefaultFormatDay` | utils/Utils.js:42 | The day replaces the first `DD` after the year and the month. |
| `Utils.DefaultFormatSubstitute` | utils/Utils.js:39-42 | If the year holds no `M` or `D` and the month holds no `D`, the three replacements turn `YYYY-MM-DD` into year, `-`, month, `-`, day. |
| `Utils.DefaultFormatShape` | utils/Utils.js:34-43 | The default format yields the unpadded year, `-`, the two-digit month, `-` and the two-digit day. |
| `Utils.DayOnlyFormat` | utils/Utils.js:39-42 | In `DD.DD`, the year and month replacements find nothing, and only the first `DD` becomes the day. |
| `Utils.OnlyFirstTokenReplaced` | utils/Utils.js:39-42 | Only the first occurrence of each token is replaced, so the format `DD.DD` gives the day, `.` and `DD`. |
| `JsString.Trim` | pages/ProfilesListPage.js:139 | `trim()`: the result is a slice of the string, with only whitespace before and after it, and it neither starts nor ends with whitespace. `TrimEmptyIffBlank` states when it is empty. |
| `JsString.ToLowerCase` | utils/CrossBrowserHelper.js:20 | `toLowerCase()` maps every character by itself and keeps the length. `ToLowerCaseIdempotent` states that it is idempotent. |
| `JsString.ReplaceFirst` | utils/Utils.js:39-42 | `replace` with a string pattern and a replacement taken literally (no `$` patterns). `ReplaceFirstOccurrence` states that it rewrites the first occurrence only. |
| `JsString.PadStart` | utils/Utils.js:36-37 | `padStart(n, c)`: the result is as long as the string or `n`, whichever is larger, ends with the string unchanged, and every character before it is `c`. `LeadingZerosKeepValue` and `TwoDigitsValue` show that zero padding keeps the value. |
| `JsString.IntToString` | utils/Utils.js:35 | `String(n)` for an integer: an optional minus sign, then the decimal digits. `NatToStringRoundTrip` and `IntToStringChars` state what it yields. |
| `JsString.TrimEmptyIffBlank` | pages/ProfilesListPage.js:139 | `trim()` yields `''` if and only if the string is all whitespace. |
| `JsString.ToLowerCaseIdempotent` | utils/CrossBrowserHelper.js:20 | Lower-casing twice is lower-casing once. |
| `JsString.ReplaceFirstOccurrence` | utils/Utils.js:39-42 | A string without the pattern is left unchanged. If the pattern occurs at `i` and nowhere before `i`, `indexOf` answers `i` and `replace` swaps exactly that occurrence for the literal replacement, keeping everything before and after it. |
| `JsString.ReplaceFirstAfter` | utils/Utils.js:39-42 | If the first occurrence of the pattern in `a + pat + b` is the one after `a`, `replace` gives `a + rep + b`. |
| `JsString.NoOccurrenceBefore` | utils/Utils.js:39-42 | If no character of `a` equals the pattern's first character, the pattern does not occur in `a + pat + b` at any index before `pat`. |
| `JsString.ReplaceFirstFirstCharAbsent` | utils/Utils.js:39-42 | A pattern whose first character is missing from the string does not occur, and `replace` changes nothing. |
| `JsString.NatToStringRoundTrip` | utils/Utils.js:36-37 | `String(n)` of a natural number reads back as `n`. |
| `JsString.LeadingZerosKeepValue` | utils/Utils.js:36-37 | Zero padding does not change the value the digits denote. |

## Left out

- Real time is not modelled: the `waitFor` timeouts, the 1000 ms pauses, async suspension and test-runner cancellation. A pause is one `Slept(1000)` event, and counts of events stand in for durations.
- Playwright is not modelled. This covers locator resolution and CSS selector semantics, visibility computation, strict mode, and the actions themselves. Faults that timing produces come from the outcome oracle. The error texts of `waitFor` and `click` timeouts are approximations of Playwright's messages. Only the aggregated message around them is the suite's own.
- The snapshot is a constant of the page: it does not change during a call or between calls. A click does not navigate, and a fill does not alter the page, so after `NavigateToProfiles` the page object still sees the dashboard snapshot. What the suite does is recorded as events.
- An action on a multi-match locator acts on the first match. Playwright's strict-mode error for several matches is not modelled.
- The direct `nth(index)` click succeeds exactly when the element at that index exists and is visible. Negative indices, which Playwright counts from the end, are treated as missing.
- Composing a selector by concatenation (`tabItems:has-text(...)`, `sidebarMenu a`) is modelled as string concatenation only. Which elements a composed selector list matches is part of the snapshot.
- `toLowerCase` is modelled for ASCII letters and for the one non-ASCII character whose lower case is an ASCII letter (U+212A KELVIN SIGN). Every other character is left unchanged. This is exact for the browser-name dispatch and approximate for other strings.
- `JsString.ReplaceFirst`: `$` substitution patterns in the replacement (`$&`, `$1`, `$$` and the like) are not modelled; the replacement is inserted literally. `JsString.ReplaceFirstOccurrence` therefore holds for replacements without `$`, which covers `Utils.formatDate`, whose replacements are digit strings and a minus sign.
- `String(n)` is modelled for integers. Exponent notation and fractional values are not modelled.
- `Utils.GenerateRandomString`: `Math.random` is replaced by an index oracle `pick`. A non-integer `length`, which makes the JavaScript loop run `ceil(length)` times, is not modelled; lengths are integers.
- `Utils.FormatDate`: the `Date` object is replaced by an integer year, a zero-based month and a day of the month. The default `new Date()` reads the clock, so it is not modelled and a date is always passed.
- JavaScript object lookups (`selectors[elementName] || ...`, `urls[env] || ...`) are modelled as finite maps with a default. Inherited prototype keys such as `constructor` are not modelled.
- Retry options are integers or absent. A non-numeric `retries` is not modelled.
- `keyboard.press`, `waitForLoadState` and `console.log` never fail in the model.
- `CrossBrowserHelper.applyBrowserWorkarounds` injects scripts into the page, so it is not part of this model. `Utils.wait` and `Utils.log` are not part of it either: they are timer and console functions.
- These files are not part of this model:
  - `pages/BasePage.js`, except that its `waitForPageLoad` is the `networkidle` load wait;
  - `pages/LoginPage.js`, `pages/ParentChildFlowPage.js`, `pages/PayflowsPage.js` and `utils/DebugHelper.js`;
  - `utils/TestData.js` and the specification test under `PayrollOnboarding/`.
- All seven WebKit selectors and the three base URLs are written in the Dafny as concatenations of their parts. The strings are the same as the source literals.
