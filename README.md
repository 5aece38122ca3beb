# Gym membership bookkeeping: a Dafny model

This project models the membership bookkeeping of a small gym-management web
application. It covers two sides:

- **The browser dashboard** (`public/script.js`):
  - the status rule that classifies each client as Expired, Active or Pending. The rule is written out three times: in the stats fold, in the status tabs and in the card badge;
  - the search filter and the status-tab filter;
  - the page slice, and the handlers that move between pages or reset the page;
  - the request the add-client form builds, including its expiry date, which is computed with `setMonth`;
  - the input guard of the renewal prompt.
- **The Express server** (`server.js`): one class over an in-memory store of client records. It holds:
  - the store, a map from id to record;
  - the owner's credentials;
  - the session of the one caller.

  There is one method per handler: login, add-client, update-visit, toggle-fee, renew, change-password and delete-client. Every handler except login and add-client sits behind the authentication gate.

"Today" is always a parameter `now`: an `Instant`, meaning a UTC date plus the milliseconds since its midnight. A `"YYYY-MM-DD"` date string denotes midnight UTC of that date. A missing date field is `None`, because `new Date(undefined)` is an Invalid Date and every `<` or `>=` comparison with it is false.

Modules, one file each:

| file | module | contents |
|---|---|---|
| `wrappers.dfy` | `Wrappers` | `Option` |
| `calendar.dfy` | `Calendar` | civil dates, instants, `AddMonths` (JavaScript's `setMonth` roll-over) |
| `text.dfy` | `Text` | `trim`, `toLowerCase`, `includes`, `isNaN`/`Number` and `parseInt` |
| `membership.dfy` | `Membership` | the client record, the status rule, the card badge |
| `listing.dfy` | `Listing` | search, tabs (as written and corrected), the stats loop, paging |
| `dashboard.dfy` | `Dashboard` | the dashboard state class, the add-client request, the renewal prompt |
| `server.dfy` | `Server` | the record operations as a class over `map<Id, Client>` |

## Model

| member | source | states |
|---|---|---|
| Calendar.AddMonths | public/script.js:438-440 | `setMonth(getMonth() + k)` keeps the day and moves k months, carrying into the year. A day the target month lacks rolls the surplus into the following month. |
| Calendar.AddMonthsZero | public/script.js:440 | Adding zero months gives back the same date. |
| Calendar.AddMonthsAdvances | public/script.js:440 | Adding one or more months gives a strictly later date. |
| Calendar.AddMonthsNotEarlier | server.js:195 | Adding a non-negative number of months never gives an earlier date. |
| Calendar.AddMonthsCompose | public/script.js:440 | For a day of at most 28, adding j months and then k months equals adding j + k months. |
| Calendar.JanuaryEndPlusOneMonth | public/script.js:440 | 31 January 2024 plus one month is 2 March 2024: the roll-over. |
| Calendar.LaterDate | server.js:189-193 | The result is one of the two dates, and neither date is later than it. |
| Calendar.Midnight | public/script.js:257 | A date string denotes midnight UTC of its date: the instant of that date with no milliseconds elapsed. |
| Calendar.SameDayMidnightIsBefore | public/script.js:259 | Midnight of today is before now exactly when now is past midnight. |
| Calendar.MidnightBeforeIff | public/script.js:259 | `new Date(d) < now` holds iff d is an earlier date, or d is today and now is past midnight. |
| Text.Trim | public/script.js:426-427 | The result is the middle part of the input. Everything cut off on either side is white space (tab, vertical tab, form feed, byte order mark, every Unicode space separator, and the four line terminators), and the result neither starts nor ends with white space. |
| Text.TrimEmptyIff | public/script.js:432 | A field trims to the empty string iff every character of it is white space. |
| Text.Lower | public/script.js:299-301 | Same length; each character is lowered; the result has no upper-case ASCII letter. |
| Text.LowerIdempotent | public/script.js:299-301 | Lowering twice is lowering once. |
| Text.Contains | public/script.js:301-302 | `includes` never holds for a query longer than the string, and always holds for the empty query. |
| Text.ContainsIff | public/script.js:301-302 | `includes` holds iff the query occurs at some position. |
| Text.IsNumeric | public/script.js:485 | `!isNaN(s)`: a blank answer is numeric (it converts to 0), and an answer whose trimmed form cannot start a number (not a digit, point, sign or `Infinity`) is not. |
| Text.ParseInt | public/script.js:491 | `parseInt` gives a number only when a digit follows the leading white space and the optional sign. |
| Text.ParseSigned | public/script.js:491 | After the white space, a number is read only from a digit, or from a sign followed by a digit. |
| Text.ParseMagnitude | public/script.js:491 | The magnitude is read only from a string starting with a digit. |
| Text.TrimStartPadded | public/script.js:491 | Leading white space is exactly what is skipped before the sign and digits. |
| Text.TrimUnpadded | public/script.js:485 | A string that neither starts nor ends with white space trims to itself. |
| Text.DigitRunOfDigits | public/script.js:491 | The digits read from decimal digits followed by a non-digit (or nothing) are exactly those digits. |
| Text.MagnitudeOfDigits | public/script.js:491 | Decimal digits not forming a `0x` prefix read as their decimal value. |
| Text.SignThenMagnitude | public/script.js:491 | After an optional sign the magnitude is read, and negated after a minus. |
| Text.ParseIntAfterBlanks | public/script.js:491 | Leading white space does not change what `parseInt` reads. |
| Text.ParseIntReadsMagnitude | public/script.js:491 | For every string of the form white space, optional sign, then a magnitude, `parseInt` gives the magnitude's value, negated after a minus. With `MagnitudeOfDigits`, decimal digits followed by a non-digit (or nothing) give their decimal value. |
| Text.DigitStringIsNumber | public/script.js:485-491 | A non-empty string of decimal digits passes `isNaN` and `parseInt` gives its decimal value. |
| Text.BlankStringIsNaNForParseInt | public/script.js:485-491 | A non-empty blank string passes `isNaN` (it converts to 0), but `parseInt` finds no digits in it and gives NaN. |
| Membership.ComparisonsOnMissingDate | public/script.js:312-323 | `<` and `>=` are complementary on an existing date, and both false on a missing one. |
| Membership.StatusOf | public/script.js:259-265 | Expired iff the expiry is behind now. Active iff not expired and the fee is "Paid". Pending iff not expired and the fee is anything else. |
| Membership.ExpiresOnItsDay | public/script.js:259 | A client whose expiry date is today is Expired exactly when now is past midnight. |
| Membership.CardBadge | public/script.js:382-391 | The badge reads Expired, Active or Pending exactly when the status rule gives that status. Its CSS class is the expired class exactly for Expired. |
| Listing.Select | public/script.js:300-303 | `filter` keeps exactly the elements that satisfy the predicate, each as many times as it occurs in the input, and drops every other element. |
| Listing.SelectIsSubsequence | public/script.js:300-303 | A filter keeps the original order. |
| Listing.SelectPartition | public/script.js:309-324 | Three filters that put every element in exactly one class split the length. |
| Listing.MatchesSearch | public/script.js:300-302 | A client matches a lowered query iff the query occurs at some position of its lowered name or of its phone. |
| Listing.SearchResults | public/script.js:298-303 | An empty query keeps every client. Otherwise a client is kept iff its lowered name, or its phone, includes the lowered query. |
| Listing.SearchKeepsOrder | public/script.js:298-303 | The search result is a subsequence of the client list. |
| Listing.InTabAsWritten | public/script.js:309-327 | The written tab tests agree with the corrected ones on every client that has an expiry date, and keep no client without one in the paid, unpaid or expired tab. |
| Listing.InTab | public/script.js:309-327 | Corrected tab tests: the paid, unpaid and expired tabs hold exactly the Active, Pending and Expired clients; any other tab holds every client. |
| Listing.FilteredAsWritten | public/script.js:309-327 | As written, the listing keeps exactly the found clients that pass the written tab test (`expiry >= today` for paid and unpaid). |
| Listing.Filtered | public/script.js:294-328 | The corrected listing keeps exactly the clients that match the search and belong to the tab. |
| Listing.FilteredKeepsOrder | public/script.js:294-328 | The listing is a subsequence of the client list. |
| Listing.SubsequenceTransitive | public/script.js:298-324 | A subsequence of a subsequence is a subsequence: the search and then the tab keep the list order. |
| Listing.TabsPartitionSearch | public/script.js:309-324 | With the corrected tab tests, the paid, unpaid and expired tabs are pairwise disjoint, cover the search result, and their lengths add up to its length. As written, an undated client is in none of them. |
| Listing.BadgeMatchesTab | public/script.js:382-391 | The badge reads Expired, Active or Pending exactly when the client is in the corrected expired, paid or unpaid tab. As written, an undated client has a badge but no tab. |
| Listing.UndatedClientFallsBetweenTabs | public/script.js:313-318 | As written, a client without an expiry date is in none of the three tabs. Yet the stats count it as paid or unpaid, and its badge is not Expired. |
| Listing.CountOf | public/script.js:254-268 | A status count never exceeds the list length. |
| Listing.UpdateStats | public/script.js:254-268 | total is the list length and equals paid + unpaid + expired. Each counter is the number of clients with the matching status. |
| Listing.CountsPartition | public/script.js:254-268 | Every client has exactly one status, so the three counts add up to the list length. |
| Listing.ExpiredCountIgnoresFee | public/script.js:259-260 | The expired count depends on the expiry dates alone, whatever the fee statuses. |
| Listing.SelectCountsStatus | public/script.js:309-324 | A filter that keeps exactly one status is as long as that status's count. |
| Listing.TabLengthsMatchStats | public/script.js:309-324 | With an empty search, the paid, unpaid and expired tabs are as long as the paid, unpaid and expired counters. |
| Listing.TotalPages | public/script.js:332 | `ceil(n / 9)`: zero pages iff no client; otherwise the last page is the one holding client n. |
| Listing.PageOf | public/script.js:333-334 | The page holds at most 9 clients. It is non-empty iff its number is at most the page count. Up to the last page it holds `min(9, n - (page - 1) * 9)` clients, so full pages before the last. Its k-th entry is entry `(page - 1) * 9 + k` of the listing. |
| Listing.PagesUpToIsPrefix | public/script.js:333-334 | Pages 1 to k, one after the other, are the first `min(9k, n)` clients of the listing. |
| Listing.PagesCoverListing | public/script.js:330-334 | Paging through every page shows the whole listing once, in order. |
| Dashboard.DashboardState.constructor | public/script.js:6-13 | The state starts with no clients, page 1, the "all" tab and an empty query. |
| Dashboard.DashboardState.Listed | public/script.js:331 | The listing before paging keeps exactly the clients that match the search and belong to the (corrected) tab, in the order of the client list. |
| Dashboard.DashboardState.ShownPage | public/script.js:330-334 | The grid shows at most 9 clients: the current page's slice of the listing, entry by entry, `min(9, n - (page - 1) * 9)` long up to the last page. It is empty iff the page is past the last one. |
| Dashboard.DashboardState.Load | public/script.js:222 | The clients become the fetched list, or the empty list when the answer carries none. |
| Dashboard.DashboardState.SelectTab | public/script.js:120-128 | Choosing a tab records it and resets the page to 1. |
| Dashboard.DashboardState.Search | public/script.js:526-530 | Typing a query records it and resets the page to 1. |
| Dashboard.DashboardState.PrevPage | public/script.js:131-136 | Goes back one page only above page 1, so the page never drops below 1. |
| Dashboard.DashboardState.NextPage | public/script.js:138-144 | Goes forward one page only while the current page is below the page count. After a move, the new page shows clients. |
| Dashboard.NextKeepsPageFilled | public/script.js:138-144 | Pressing next on a page that shows clients lands on a page that shows clients. |
| Dashboard.AddClientRequest | public/script.js:425-446 | No request iff the trimmed name or phone is empty or the join date is missing. An unparsable duration throws before any request is built. Otherwise the form carries the trimmed fields and expiry = `AddMonths(join, duration)`. |
| Dashboard.BlankFieldsAreMissing | public/script.js:426-435 | A name made of blanks only is refused like an empty one. |
| Dashboard.SubmittedExpiryFollowsJoin | public/script.js:437-446 | For a duration of at least one month, the expiry sent is after the join date. |
| Dashboard.RenewPrompt | public/script.js:483-491 | Nothing is sent iff the prompt is cancelled, answered empty, or answered with something `isNaN` rejects. Otherwise the body carries `parseInt` of the answer (see the three lemmas below for what that is). |
| Dashboard.CancelledPromptSendsNothing | public/script.js:484-485 | A cancelled prompt sends nothing. |
| Dashboard.DigitAnswerSendsItsValue | public/script.js:485-491 | Every answer of decimal digits sends their decimal value. |
| Dashboard.NonNumberAnswerSendsNothing | public/script.js:485 | Every answer whose trimmed form cannot start a number (a word, say) sends nothing. |
| Dashboard.BlankAnswerSendsNaN | public/script.js:485-491 | Every non-empty blank answer passes the guard and sends NaN. |
| Server.StatusCode | server.js:91 | 401 exactly for Unauthorized, 500 exactly for a server error, 201 exactly for Created, and 200 exactly for a message, an outcome or a rejection. |
| Server.NewRecord | server.js:118-125 | The record takes the body's name, phone and join date. The photo is the upload's path, or "" without one. The fee status is "Unpaid", and there is no expiry date and no last visit. |
| Server.ToggledFee | server.js:170 | "Paid" becomes "Unpaid"; every other value becomes "Paid". |
| Server.ToggleTwiceRestores | server.js:170 | Toggling a "Paid" or "Unpaid" status twice restores it. |
| Server.ToggleTwiceNormalises | server.js:170 | Any status other than "Paid" comes back from two toggles as "Unpaid". |
| Server.RenewedExpiry | server.js:188-195 | The new expiry is `AddMonths(max(expiry, today), 1)`, which is after both the old expiry and today. |
| Server.MonthAfterLaterDate | server.js:188-195 | A month after the later of two dates is after both. |
| Server.RenewedRecordIsActive | server.js:188-199 | A renewed record is Active at the instant of its renewal. |
| Server.RenewalExample | server.js:188-199 | A record that expired on 15 February 2024 and is renewed on 1 March 2024 expires on 1 April 2024. |
| Server.NewRecordFallsBetweenTabs | server.js:118-125 | Every record add-client creates is in none of the written status tabs, yet it is counted Pending. |
| Server.GymServer.constructor | server.js:55-58 | The store starts empty, the owner is admin/1234, and there is no session. |
| Server.GymServer.IsAuthenticated | server.js:89-94 | The gate passes only a session holding a user, and an empty user name (falsy) does not pass. |
| Server.GymServer.Login | server.js:98-107 | The session user is set iff both credentials equal the owner's, and the reply says which; a successful login passes the gate. Otherwise the session is untouched. |
| Server.GymServer.AddClient | server.js:118-134 | Without an authentication gate, stores `NewRecord` under a fresh id, changes no other record, and answers 201. |
| Server.GymServer.UpdateVisit | server.js:150-162 | Behind the gate, sets only the record's last visit to today's UTC date. Other records and fields are unchanged; a missing id changes nothing and still answers 200. |
| Server.GymServer.ToggleFee | server.js:166-180 | Behind the gate, flips only the fee status of an existing record. A missing id answers 500 with the store unchanged. |
| Server.GymServer.Renew | server.js:184-207 | Behind the gate, sets the expiry to `RenewedExpiry` and the fee status to "Paid", whatever months the body asks for. A missing id, or a record without an expiry date, answers 500 with the store unchanged. |
| Server.GymServer.ChangePassword | server.js:211-220 | Behind the gate, the password becomes the new one iff the old one matches. Otherwise it is unchanged and the reply is "Old password incorrect". |
| Server.GymServer.DeleteClient | server.js:232-239 | Behind the gate, removes the given id and no other record, and answers 200 even when the id is absent. |
| Server.ToggleTwiceKeepsStore | server.js:166-180 | Two toggles of a "Paid" or "Unpaid" record give back the whole store unchanged. |
| Server.RenewMovesForward | server.js:184-207 | Renewing moves a stored expiry strictly forward and leaves the record Active. |

Each gated method's contract states that without the authentication gate (`Server.GymServer.IsAuthenticated`) the reply is 401 and nothing changes.

## Left out

- Rendering, templating, modals, toasts, photo preview, the number animation, the search debounce and the theme: these are UI, timers and browser APIs.
- The `fetch` calls and the load, toggle, renew and delete requests the dashboard sends: network I/O. Only the values they carry are modelled (`Load`, `AddClientRequest`, `RenewPrompt`).
- GET `/clients`, logout and the home route: these read or end the session and have no bookkeeping logic.
- Express, session, CORS, static files, MongoDB, Multer and Cloudinary configuration:
  - the store is an in-memory map;
  - ids are natural numbers handed out by a counter instead of ObjectIds, so the cast error a malformed id would raise is not modelled;
  - the session is one optional user name for the one caller; concurrent sessions and requests are not modelled.
- Two defects of the code are noted but not modelled, since the handlers are modelled in isolation:
  - server.js:29 reads `storage` before its `const` declaration at server.js:76, so the module would throw at load;
  - the dashboard calls `/api/...` paths that the server does not define.
- The handlers do no phone validation or uniqueness check, never answer NotFound, always renew by one month and never delete photos; the model follows them.
- Calendar.AddMonths: works on proleptic Gregorian dates in UTC without JavaScript's range limit of ±8.64e15 ms. The browser's and the server's local time zones are not modelled: every date is UTC.
- Dashboard.DashboardState.Listed, Dashboard.DashboardState.ShownPage, Dashboard.DashboardState.NextPage: page the corrected tabs (`Listing.Filtered`), not the written `getFilteredClients`. As written, a client without an expiry date (every record add-client creates) is in no paid, unpaid or expired tab, so with such clients the written grid is empty and next never moves where the model shows them; `Listing.FilteredAsWritten` and `Listing.UndatedClientFallsBetweenTabs` state the written behaviour.
- Text.Lower: lowers only the ASCII letters A-Z. Full Unicode case mapping is not modelled.
- Text.ParseInt: the number is an unbounded integer, so the rounding of long digit runs to a double is not modelled.
- Dashboard.AddClientRequest: a duration is the integer that `parseInt` gives, or `None` for NaN. The photo is an optional file name. The toast and the button state are not modelled.
- Server.GymServer.AddClient: a database failure (the 500 "Failed to add client" answer) is not modelled. Missing body fields are modelled as strings.
- Server.GymServer.UpdateVisit, Server.GymServer.DeleteClient: the 500 answers these give on a database failure are not modelled.
- Server.GymServer.Login, Server.GymServer.ChangePassword: missing body fields (`undefined`) are modelled as strings. Logging out is not modelled.

## Findings

| source | as written | input that shows it | evidently intended | confidence | as-written member | corrected member |
|---|---|---|---|---|---|---|
| public/script.js:313-318 | The paid and unpaid tabs keep a client only when `new Date(c.expiryDate) >= today`. That is false for a record without an expiry date, and every record that server.js:118-125 creates has none. | A client `{ feeStatus: "Unpaid" }` with no `expiryDate` (any record made by add-client). It is in none of the paid, unpaid and expired tabs, while the stats count it as unpaid and its badge reads Pending. | The tabs use the stats' and the badge's test `!(expiry < today)`, so that each client is in exactly one tab and each tab is as long as its stats counter. | not executed | Listing.UndatedClientFallsBetweenTabs | Listing.TabLengthsMatchStats |
