# brew-detective, modelled in Dafny

Brew Detective is a coffee-tasting game. A customer orders a case of coffees
and gets a six-character order code. They taste the coffees, then submit
guesses (region, variety, process, tasting notes) together with that code. The
backend scores the submission, marks the order as redeemed, and updates the
player's points, accuracy and badges. It also serves a global leaderboard and a
leaderboard for the current case. Administrators manage cases, the answer
catalog and orders. Users sign in with Google OAuth and then carry a signed
session token. The browser keeps that token in `localStorage` and sends it as a
bearer credential (section 2.1 of RFC 6750).

This project models that core and proves its properties:

- **Go handlers as methods.** Each handler for submissions, leaderboards,
  catalog, cases, orders and the OAuth callback is a method. It takes the
  request's inputs and the relevant Firestore collections, and returns the HTTP
  status, the response payload and the new collections.
- **Firestore as a value.** A collection is a sequence of `(id, document)`
  pairs (`store.dfy`):
  - `Set` replaces or appends a document;
  - `Update` fails on a missing document;
  - `Delete` of a missing document is a no-op.
- **Typed and untyped documents.** Users, orders and submissions are
  datatypes. Cases and catalog items are JSON field maps, because their update
  handlers forward arbitrary JSON maps as field updates.
- **Loops kept as loops.** Where the Go code loops (scoring, grouping,
  normalising coffee IDs, aggregating best scores, generating codes), the model
  is a Dafny method with a loop. Each such method is proved equal to a
  specification function, and that function's properties are proved as lemmas.
- **The browser store as a class.** `localStorage` is a class with a mutable
  map. `window.Auth` and `API.request` from `src/js/config.js` are methods that
  read and change it.
- **Outside effects as parameters.** These are passed in as values or
  functions, never computed by the model:
  - clocks, random bytes and UUIDs;
  - JWT signing and validation;
  - Google's code exchange, `fetch`, `JSON.parse` and `JSON.stringify`;
  - the `atob` decoding of the token payload (standard base64, section 4 of
    RFC 4648).

Files:

- `models.dfy`: the records.
- `store.dfy`: JSON, Firestore and Go map iteration.
- `text.dfy`: Go's `strings` helpers (ASCII).
- `paging.dfy`: `strconv.Atoi` and the `limit`/`offset` rules.
- `sorting.dfy`: `sort.Slice` as a sorted permutation.
- `scoring.dfy`: tasting-note matching and `calculateScore`.
- `submissions.dfy`: submission flow, order redemption, statistics, badges.
- `leaderboard.dfy`: both leaderboards and profile updates.
- `catalog.dfy`, `cases.dfy`, `orders.dfy`: the three admin areas.
- `generators.dfy`: Go integer semantics and `GenerateOrderID`.
- `auth.dfy`: the middleware, token claims and OAuth state.
- `auth_handlers.dfy`: the OAuth callback and logout.
- `client_config.dfy`: the browser session.

## Model

| member | source | states |
|---|---|---|
| Paging.Atoi | backend/internal/handlers/submissions.go:495 | a parse succeeds only on a non-empty input and yields an int64 value |
| Paging.AtoiItoa | backend/internal/handlers/submissions.go:495 | every int64 printed in decimal (and, when non-negative, with a leading "+") parses back to itself |
| Paging.QueryLimit | backend/internal/handlers/catalog.go:228-233 | the limit lies in 1..max; it is the parsed value when that is in range, otherwise the default |
| Paging.QueryOffset | backend/internal/handlers/catalog.go:235-240 | the offset is non-negative; it is the parsed value when that is non-negative, otherwise 0 |
| Paging.ListPage | backend/internal/handlers/cases.go:160-172 | the rule `GetAllCases` shares with `GetAllOrders` (orders.go:127-139): the limit is the parsed value when it lies in 1..100, otherwise 20; the offset is the parsed value when non-negative, otherwise 0 |
| Scoring.NormalizeAllAt | backend/internal/handlers/submissions.go:589-591 | segment i of the normalised notes is segment i trimmed and lower-cased |
| Scoring.NormalizedNotes | backend/internal/handlers/submissions.go:586 | one normalised note per comma-separated segment |
| Scoring.FirstMatchingNoteIsFirst | backend/internal/handlers/submissions.go:589-619 | the search returns the first matching segment, and "" exactly when no segment matches |
| Scoring.BlankNoteNormalizesEmpty | backend/internal/handlers/submissions.go:582 | a user note made only of white space normalises to "" |
| Scoring.BlankNoteMatchesAsWritten | backend/internal/handlers/submissions.go:576-609 | as written, a non-empty blank user note matches the first non-empty correct note |
| Scoring.MatchedTastingNoteIsFirst | backend/internal/handlers/submissions.go:573-620 | corrected rule: the first segment that equals, contains or is contained in the user note; "" iff an input is empty, the note is blank or nothing matches |
| Scoring.BlankNoteMatchesNothing | backend/internal/handlers/submissions.go:576-579 | corrected rule: a blank user note matches nothing |
| Scoring.MatchedNoteAgrees | backend/internal/handlers/submissions.go:573-620 | for every non-blank user note, the corrected rule equals the code as written |
| Scoring.GetMatchedTastingNote | backend/internal/handlers/submissions.go:573-620 | the loop returns exactly the corrected matching rule (a blank user note matches nothing), not the code as written |
| Scoring.EnabledPerCoffee | backend/internal/handlers/submissions.go:111-126 | at most 5 questions per coffee, and 0 iff none of the five per-coffee questions is enabled |
| Scoring.FindCoffee | backend/internal/handlers/submissions.go:146-152 | the result is the first case coffee with the ID, or None iff no coffee has it |
| Scoring.FindCorrectCoffee | backend/internal/handlers/submissions.go:146-152 | the search loop returns FindCoffee's result |
| Scoring.AttributePoint | backend/internal/handlers/submissions.go:168-205 | a point iff the question is enabled, the answer is non-empty, and both sides agree after trimming and case folding |
| Scoring.TasteNotePoints | backend/internal/handlers/submissions.go:207-248 | at most one point per enabled tasting-note question, matched with the corrected note rule |
| Scoring.AnswerPoints | backend/internal/handlers/submissions.go:142-251 | at most the enabled-question count; an answer for a coffee not in the case earns 0 (corrected note rule) |
| Scoring.BlankAnswerEarnsNothing | backend/internal/handlers/submissions.go:168-248 | an answer left blank everywhere earns 0 |
| Scoring.RepeatedNoteScoresOnce | backend/internal/handlers/submissions.go:225-242 | when the second note matches the note the first already scored (up to case), only one point is paid |
| Scoring.SameNoteTwiceScoresAtMostOnce | backend/internal/handlers/submissions.go:207-248 | typing the same note twice earns at most one point |
| Scoring.CorrectAnswers | backend/internal/handlers/submissions.go:128-251 | the correct count never exceeds answers × enabled questions (corrected note rule) |
| Scoring.Bonus | backend/internal/handlers/submissions.go:253-273 | the bonus is 0, 50 or 100; 50 per enabled bonus question answered at all |
| Scoring.BasePoints | backend/internal/handlers/submissions.go:275-276 | the base score, exact truncation of 100 × accuracy × coffees, is at most 100 per coffee answer |
| Scoring.CaseScoreBounds | backend/internal/handlers/submissions.go:128-286 | score in 0..100·n+100 and accuracy in [0,1]; no enabled questions gives (0, 0) |
| Scoring.BonusIsAdditive | backend/internal/handlers/submissions.go:253-276 | answering the bonus questions adds exactly the bonus and leaves accuracy unchanged |
| Scoring.DefaultCorrect | backend/internal/handlers/submissions.go:296-309 | the fallback count is at most 3 per answer |
| Scoring.DefaultScoreBounds | backend/internal/handlers/submissions.go:290-315 | fallback score in 0..100·n, accuracy in [0,1], no bonus; no answers gives (0, 0) |
| Scoring.DefaultAllAnswered | backend/internal/handlers/submissions.go:299-309 | under the fallback, filling region, variety and process everywhere counts 3 per answer |
| Scoring.ScoreForIgnoresIdentity | backend/internal/handlers/submissions.go:92-101 | the score depends only on the answers and the case, not on IDs or times |
| Scoring.AlreadyAwarded | backend/internal/handlers/submissions.go:229-235 | true iff some awarded note equals the matched one up to case |
| Scoring.ScoreTastingNotes | backend/internal/handlers/submissions.go:207-248 | the tasting-note loop pays TasteNotePoints (corrected note rule) |
| Scoring.ScoreAttribute | backend/internal/handlers/submissions.go:168-179 | the attribute check pays AttributePoint |
| Scoring.ScoreAnswer | backend/internal/handlers/submissions.go:142-251 | one loop iteration pays AnswerPoints (corrected note rule) |
| Scoring.CountCorrectAnswers | backend/internal/handlers/submissions.go:142-251 | the loop over answers yields CorrectAnswers (corrected note rule) |
| Scoring.CalculateScore | backend/internal/handlers/submissions.go:92-287 | score and accuracy equal the specification (case scoring with the corrected note rule and exact arithmetic, or the fallback when the case is unreadable) and lie within the bounds |
| Scoring.CalculateScoreDefault | backend/internal/handlers/submissions.go:290-315 | the fallback equals DefaultScore |
| Submissions.EarnedBadgesThresholds | backend/internal/handlers/submissions.go:366-387 | each badge is earned iff its threshold holds (1 case, 70 %, 80 %, 2000 points, 5 cases), and no other badge is |
| Submissions.BadgeMap | backend/internal/handlers/submissions.go:359-364 | the map's keys are exactly the existing badges |
| Submissions.UpdateBadges | backend/internal/handlers/submissions.go:358-394 | the new badges are the old ones plus the earned ones, without duplicates |
| Submissions.AwardEarnedBadges | backend/internal/handlers/submissions.go:366-387 | the five checks add exactly the earned badges |
| Submissions.AwardBadge | backend/internal/handlers/submissions.go:367-369 | one check adds its badge iff earned |
| Submissions.RunningMeanTimes | backend/internal/handlers/submissions.go:348 | the new mean times the new count is the old total plus the new accuracy |
| Submissions.MeanAfterIsMean | backend/internal/handlers/submissions.go:347-348 | repeated running-mean updates give the arithmetic mean of all accuracies |
| Submissions.RunningMeanInUnit | backend/internal/handlers/submissions.go:348 | an accuracy in [0,1] stays in [0,1] after an update |
| Submissions.ApplySubmissionStats | backend/internal/handlers/submissions.go:345-353 | points grow by the score, the case count by one, accuracy becomes the running mean, badges are updated, all else stays |
| Submissions.UpdateUserStats | backend/internal/handlers/submissions.go:318-355 | an update happens iff the user ID is non-empty and the user exists; then exactly that user is rewritten |
| Submissions.FindOrder | backend/internal/handlers/submissions.go:402-409 | the first order with the code, or None iff there is none |
| Submissions.ValidateOrderID | backend/internal/handlers/submissions.go:397-427 | acceptance needs an order with that code that is delivered and unused; no such order means rejection |
| Submissions.ValidateUniqueOrder | backend/internal/handlers/submissions.go:397-427 | for a code held by one order, acceptance iff that order is delivered and unused |
| Submissions.MarkOrderIDAsUsed | backend/internal/handlers/submissions.go:430-453 | the first order with the code gets used flag, user, time and update time; nothing else changes; an unknown code changes nothing |
| Submissions.MarkedOrderNotRedeemable | backend/internal/handlers/submissions.go:397-453 | once marked, the code is rejected |
| Submissions.SubmitCase | backend/internal/handlers/submissions.go:21-89 | 201 iff body, order code, active case, valid code and login; 400, 500, 401 (order) and 401 (login) in the handler's order; on 201 the stored submission, the redeemed order and the user's statistics, each stamped by its own clock reading |
| Submissions.UserSubmissionsPage | backend/internal/handlers/submissions.go:489-505 | the limit is the parsed value when it lies in 1..50, otherwise 10; the offset is the parsed value when non-negative, otherwise 0 |
| Leaderboard.AssignRanks | backend/internal/handlers/leaderboard.go:71-74 | the rank loop gives entry i rank i + 1 |
| Leaderboard.Eligible | backend/internal/handlers/leaderboard.go:52-63 | at most one entry per user, unranked |
| Leaderboard.EligibleMembers | backend/internal/handlers/leaderboard.go:52-63 | an entry is listed iff it comes from a user with attempts, solves or points |
| Leaderboard.TopRankedAt | backend/internal/handlers/leaderboard.go:71-79 | position i of the top 50 is sorted entry i with rank i + 1 |
| Leaderboard.GlobalRankingShape | backend/internal/handlers/leaderboard.go:66-79 | for any points-sorted permutation of the eligible entries: min(50, eligible) entries, ranked 1..n, points non-increasing |
| Leaderboard.GlobalRankingPrefix | backend/internal/handlers/leaderboard.go:66-79 | unranked, the board is a prefix of the sorted entries |
| Leaderboard.GlobalRankingFromEligible | backend/internal/handlers/leaderboard.go:52-79 | every shown entry is an eligible user's entry, shown no more often than it occurs |
| Leaderboard.GlobalRankingKeepsBest | backend/internal/handlers/leaderboard.go:66-79 | an eligible entry shown fewer times than it occurs (counting identical duplicates) means the board is full and everyone shown has at least its points |
| Leaderboard.GlobalRankingIsLeaderboard | backend/internal/handlers/leaderboard.go:52-79 | ranking and cutting any points-sorted permutation of the eligible entries gives a global leaderboard (shape, order, multiplicity, completeness), whatever the order of ties |
| Leaderboard.GetLeaderboard | backend/internal/handlers/leaderboard.go:21-85 | 200 with a global leaderboard of all users (tie order unspecified, as for `sort.Slice`), total_users its length (≤ 50) |
| Leaderboard.Best | backend/internal/handlers/leaderboard.go:372-376 | the kept best score is non-negative, and a zero best keeps accuracy 0 |
| Leaderboard.BestIsFirstMaximum | backend/internal/handlers/leaderboard.go:372-376 | the best is at least every counted submission's score, and a positive best comes from one of them |
| Leaderboard.BestWithoutSubmission | backend/internal/handlers/leaderboard.go:362-369 | a user without submissions for the case keeps (0, 0) |
| Leaderboard.SubmittedAt | backend/internal/handlers/leaderboard.go:329-380 | a user is seen iff some submission of the case counts for them |
| Leaderboard.AggregateCaseScores | backend/internal/handlers/leaderboard.go:326-380 | the loop builds, per participant with a profile, their best score, accuracy, name and badges, CasesCount 1 |
| Leaderboard.EntriesInSomeOrder | backend/internal/handlers/leaderboard.go:382-386 | the map's entries, each exactly once, in an unspecified order |
| Leaderboard.ParticipantKeys | backend/internal/handlers/leaderboard.go:348-379 | the map's keys are exactly the participants |
| Leaderboard.SortedEntriesAreAggregated | backend/internal/handlers/leaderboard.go:382-394 | after sorting, every entry is its user's aggregate, and users are distinct |
| Leaderboard.CaseRankingEntries | backend/internal/handlers/leaderboard.go:388-404 | shown entries are aggregates with rank i + 1, distinct, ordered by points then accuracy |
| Leaderboard.CaseRankingKeepsBest | backend/internal/handlers/leaderboard.go:388-404 | an entry cut off means the board is full and every shown entry ranks above it |
| Leaderboard.CaseRankingEntriesAreBoard | backend/internal/handlers/leaderboard.go:326-404 | the ranking satisfies the board's entry properties |
| Leaderboard.CaseRankingIsLeaderboard | backend/internal/handlers/leaderboard.go:326-404 | the ranking is a current-case leaderboard |
| Leaderboard.CaseRankingKeepsAll | backend/internal/handlers/leaderboard.go:382-404 | min(50, participants) entries, and any participant not shown ranks below all shown |
| Leaderboard.CaseRankingComplete | backend/internal/handlers/leaderboard.go:326-404 | the ranking satisfies the board's completeness properties |
| Leaderboard.GetCurrentCaseLeaderboard | backend/internal/handlers/leaderboard.go:310-411 | 404 without an active case; otherwise 200 with a board meeting CaseLeaderboard |
| Leaderboard.UpdateUserProfile | backend/internal/handlers/leaderboard.go:190-237 | 400, 404, or 200 with non-empty name/email replacing the stored ones, the update time set, all else unchanged |
| Catalog.ValidCategories | backend/internal/handlers/catalog.go:24-34 | exactly region, variety, process and brewing_method are valid |
| Catalog.DecodeItem | backend/internal/handlers/catalog.go:55-59 | a decoded item's category and active flag are the document's fields |
| Catalog.DecodeItemFields | backend/internal/handlers/catalog.go:150-152 | a stored item decodes back to itself |
| Catalog.Collect | backend/internal/handlers/catalog.go:39-62 | the matching documents' items, never more items than documents |
| Catalog.CollectFails | backend/internal/handlers/catalog.go:55-59 | the scan fails iff a kept document does not decode |
| Catalog.CollectMembers | backend/internal/handlers/catalog.go:39-62 | an item is collected iff a kept document decodes to it |
| Catalog.CollectInCategory | backend/internal/handlers/catalog.go:39-42 | every collected item is active and of the requested category |
| Catalog.FetchItems | backend/internal/handlers/catalog.go:44-62 | the iterator loop succeeds iff Collect does, with Collect's items |
| Catalog.GetCatalogByCategory | backend/internal/handlers/catalog.go:20-70 | 400 for a bad category, 500 on an undecodable item, otherwise 200 with a permutation of the matching active items sorted by display order |
| Catalog.OfCategory | backend/internal/handlers/catalog.go:99 | a category's group never exceeds the items |
| Catalog.OfCategoryMembers | backend/internal/handlers/catalog.go:99 | an item is in a group iff it is an item of that category |
| Catalog.GroupByCategory | backend/internal/handlers/catalog.go:81-100 | a category is a key iff it has items, and holds those items in order |
| Catalog.SortGroups | backend/internal/handlers/catalog.go:102-107 | same keys; each group permuted into display order |
| Catalog.GetAllCatalog | backend/internal/handlers/catalog.go:73-110 | 500 on an undecodable item; otherwise 200 with every active item in its category's group, sorted |
| Catalog.GroupsAreCategories | backend/internal/handlers/catalog.go:81-107 | each item appears under its own category and nowhere else |
| Catalog.CreateCatalogItem | backend/internal/handlers/catalog.go:113-159 | 201 iff a body with value, label and a valid category; then the stored item has the new ID, the time and is active |
| Catalog.Whitelisted | backend/internal/handlers/catalog.go:176-185 | only label, value, is_active and display_order survive |
| Catalog.WhitelistUpdates | backend/internal/handlers/catalog.go:175-185 | the filtering loop keeps exactly the whitelisted fields |
| Catalog.WhitelistKeepsIdentity | backend/internal/handlers/catalog.go:176-185 | fields outside the whitelist keep their stored values |
| Catalog.WhitelistSetsUpdatable | backend/internal/handlers/catalog.go:176-185 | a whitelisted field in the body takes the body's value |
| Catalog.UpdateCatalogItem | backend/internal/handlers/catalog.go:162-201 | 400 without a body or allowed field, 500 on a missing item, otherwise 200 merging the allowed fields into that item only |
| Catalog.DeleteCatalogItem | backend/internal/handlers/catalog.go:204-219 | always 200; the item is gone |
| Catalog.CatalogItemsPage | backend/internal/handlers/catalog.go:228-240 | the limit is the parsed value when it lies in 1..100, otherwise 50; the offset is the parsed value when non-negative, otherwise 0 |
| Cases.CoffeesJson | backend/internal/handlers/cases.go:57-58 | one JSON entry per coffee |
| Cases.NormalizedCoffees | backend/internal/handlers/cases.go:42-46 | one coffee out per coffee in |
| Cases.NormalizedCoffeesRule | backend/internal/handlers/cases.go:42-46 | an empty or `coffee_` ID gets the fresh UUID; anything else is untouched |
| Cases.NormalizedCoffeesIdempotent | backend/internal/handlers/cases.go:42-46 | with proper UUIDs, normalising twice equals normalising once |
| Cases.NormalizeCoffeeIDs | backend/internal/handlers/cases.go:42-46 | the loop computes NormalizedCoffees |
| Cases.NormalizedCoffeeMaps | backend/internal/handlers/cases.go:81-95 | one entry out per entry in |
| Cases.NormalizedCoffeeMapsKeep | backend/internal/handlers/cases.go:84-90 | entries that are not objects, or lack a string `id` needing one, are untouched |
| Cases.NormalizedCoffeeMapsRewrite | backend/internal/handlers/cases.go:85-89 | an entry whose `id` is empty or `coffee_…` gets the UUID and keeps its other fields |
| Cases.NormalizationAgrees | backend/internal/handlers/cases.go:42-46 | the update path on JSON maps and the create path on coffees give the same result |
| Cases.NormalizeCoffeeMaps | backend/internal/handlers/cases.go:81-95 | the loop computes NormalizedCoffeeMaps |
| Cases.CreateCase | backend/internal/handlers/cases.go:22-68 | 201 iff a body with name and description; the stored case has the new ID, both times and normalised coffee IDs |
| Cases.CaseUpdatesShape | backend/internal/handlers/cases.go:80-98 | updates are the body plus `updated_at`, with coffees normalised when an array, all else unchanged |
| Cases.PrepareCaseUpdates | backend/internal/handlers/cases.go:80-98 | the preparation computes CaseUpdates |
| Cases.UpdateCase | backend/internal/handlers/cases.go:71-128 | 400 for a body that is not a JSON object, 500 and no write for a `null` body (the nil-map panic of line 98), 404 for a missing case, otherwise 200 merging the updates into that case only |
| Cases.DeleteCase | backend/internal/handlers/cases.go:131-152 | 404 for a missing case; otherwise 200 and the case is gone, one document fewer |
| Bytes.Wrap64 | backend/internal/auth/auth.go:76 | the int64 wrap of a sum is in range and congruent to it modulo 2^64 |
| Bytes.GoRem | backend/internal/auth/auth.go:76 | Go's `%` by a positive divisor: magnitude below the divisor, sign of the dividend |
| Bytes.LowByteOfWrappedRemainder | backend/internal/auth/auth.go:74-77 | `byte((t + int64(i)) % 256)` is (t + i) mod 256 for every int64 t, negative or overflowing included |
| Generators.DrawIndex | backend/internal/utils/generators.go:16-22 | the charset index is always below 36 |
| Generators.OrderIDFor | backend/internal/utils/generators.go:9-26 | a code has six characters |
| Generators.OrderIDCharacters | backend/internal/utils/generators.go:10-22 | every character is a capital letter or a digit |
| Generators.ToUpperKeeps | backend/internal/utils/generators.go:25 | the final upper-casing changes nothing |
| Generators.FallbackOrderID | backend/internal/utils/generators.go:18-21 | when crypto/rand always fails, the code is "AHOV29" |
| Generators.GenerateOrderID | backend/internal/utils/generators.go:9-26 | the loop yields OrderIDFor: six capitals or digits |
| Orders.CreateOrder | backend/internal/handlers/orders.go:20-53 | 400 without a body; otherwise 201 with the new ID, a generated code, "pending", unused, both times, stored |
| Orders.NewOrderNotRedeemable | backend/internal/handlers/orders.go:31-32 | a new order cannot be redeemed until its status becomes "delivered" |
| Orders.UpdateOrderStatus | backend/internal/handlers/orders.go:78-119 | 400, 404, or 200 changing exactly that order's status and update time |
| Orders.StatusDecidesRedemption | backend/internal/handlers/orders.go:108-110 | an unused order becomes redeemable iff the new status is "delivered" |
| Auth.BearerToken | backend/internal/auth/auth.go:156-170 | a token iff the header starts with exactly "Bearer "; the header is prefix + token; each rejection's message |
| Auth.BearerTokenRoundTrip | backend/internal/auth/auth.go:164-170 | the header built from a token gives that token back |
| Auth.BearerSchemeIsExact | backend/internal/auth/auth.go:164 | "bearer …" and "Bearer" are rejected; "Bearer " gives the empty token |
| Auth.AuthMiddleware | backend/internal/auth/auth.go:154-184 | passes iff the header holds a token that validates, with the claims' identity; otherwise 401 |
| Auth.AdminMiddleware | backend/internal/auth/auth.go:187-241 | 403 iff valid and the stored user is not an admin; passes iff the stored user is an admin; else 401 |
| Auth.AdminGateImpliesAuthGate | backend/internal/auth/auth.go:154-241 | whatever passes the admin gate passes the plain gate with the same identity |
| Auth.TokenClaims | backend/internal/auth/auth.go:118-127 | the claims carry the user's ID, email and name |
| Auth.NumericDateShift | backend/internal/auth/auth.go:124 | adding 24 hours adds exactly 86400 whole seconds |
| Auth.TokenLifetimeIsOneDay | backend/internal/auth/auth.go:118-131 | expiry is issue time + 86400, or + 86399 when the second changes between the two clock reads |
| Auth.StateBytesFor | backend/internal/auth/auth.go:70-78 | the state has 32 bytes |
| Auth.Hex | backend/internal/auth/auth.go:79 | `%x` writes two characters per byte |
| Auth.HexIsLowerHex | backend/internal/auth/auth.go:79 | every character is a lower-case hex digit |
| Auth.UnhexHex | backend/internal/auth/auth.go:79 | the hex text reads back as the bytes |
| Auth.GenerateOAuthState | backend/internal/auth/auth.go:69-86 | 64 lower-case hex characters encoding the random bytes or the clock fallback, readable back to them |
| AuthHandlers.GeneratedStateAccepted | backend/internal/handlers/auth.go:28-37 | every generated state passes the callback's state check |
| AuthHandlers.NewUser | backend/internal/handlers/auth.go:59-71 | a new user has Google's identity, type "regular", empty statistics and the two times |
| AuthHandlers.MergeGoogleProfile | backend/internal/handlers/auth.go:88-106 | email and picture from Google, a non-empty name and type kept, empty type made "regular", update time set, nothing else changed |
| AuthHandlers.MergedProfileUnique | backend/internal/handlers/auth.go:88-106 | the merge rule determines the whole stored user |
| AuthHandlers.MergeKeepsCustomisation | backend/internal/handlers/auth.go:88-106 | login never loses a custom name, a role or any statistic |
| AuthHandlers.RedirectURL | backend/internal/handlers/auth.go:123-127 | the URL is exactly the front end (default http://localhost:8080) + "/#token=" + the token: that prefix, that suffix, and their combined length |
| AuthHandlers.GoogleCallback | backend/internal/handlers/auth.go:23-129 | the 400s in order, 500 "Failed to get user data" on a failed exchange, the user created (CreatedAt and UpdatedAt from the two clocks) or merged (UpdatedAt from the clock) under Google's ID, then 500 on a signing failure or 307 to the redirect URL |
| AuthHandlers.Logout | backend/internal/handlers/auth.go:155-159 | always 200 |
| ClientConfig.GetToken | src/js/config.js:37-39 | the stored token, or None when the key is missing |
| ClientConfig.SetToken | src/js/config.js:41-43 | the token is stored, reads back, nothing else changes |
| ClientConfig.RemoveToken | src/js/config.js:45-48 | token and profile removed, every other key untouched |
| ClientConfig.GetUser | src/js/config.js:50-53 | null for a missing or empty item; otherwise the parse result, an error where parsing throws |
| ClientConfig.SetUser | src/js/config.js:55-57 | the serialised profile is stored under `user_data`, nothing else changes |
| ClientConfig.SetUserGetUser | src/js/config.js:50-57 | a stored profile reads back when its text parses back to it |
| ClientConfig.TokenLive | src/js/config.js:63-69 | live iff a second dot segment exists, decodes to an `exp`, and exp × 1000 > now |
| ClientConfig.IsAuthenticated | src/js/config.js:59-70 | true iff a non-empty token is stored and live |
| ClientConfig.NoPayloadNotLive | src/js/config.js:63-69 | a token without a dot is never accepted |
| ClientConfig.LivenessIsMonotone | src/js/config.js:66 | live now means live earlier; dead from exp × 1000 on |
| ClientConfig.MergedHeaders | src/js/config.js:101-110 | JSON content type unless overridden, the caller's headers, and `Authorization: Bearer <token>` iff a non-empty token is stored |
| ClientConfig.ConfigAsWritten | src/js/config.js:112-115 | as written, caller headers replace the merged headers |
| ClientConfig.Config | src/js/config.js:112-115 | corrected: the caller's method and body with the merged headers |
| ClientConfig.AsWrittenDropsAuthorization | src/js/config.js:101-115 | with caller headers and a token, the request goes out without Authorization or Content-Type |
| ClientConfig.AsWrittenAgreesWithoutHeaders | src/js/config.js:112-115 | without caller headers, as-written and corrected coincide |
| ClientConfig.HelpersAuthorizeIffTokenStored | src/js/config.js:137-159 | for get/post/put/delete, Authorization is present iff a token is stored, carrying that token |
| ClientConfig.Classify | src/js/config.js:117-134 | a failed fetch errors; 401 → authentication error; other non-2xx → HTTP error with that status; 2xx → the body, or an error if unreadable |
| ClientConfig.Request | src/js/config.js:99-135 | sends the corrected config to base URL + endpoint; result is Classify's; clears token and profile exactly on 401 |
| ClientConfig.Logout | src/js/config.js:83-94 | posts iff authenticated beforehand; always clears token and profile and reloads |

## Left out

- Firestore itself. Queries, iterators, document ordering and network errors
  are replaced by in-memory collections in document order. Failed writes
  (`Set`, `Update`, `Delete` returning an error) are not modelled, so the 500
  answers for failed writes do not occur.
- `DataTo` failures on typed documents are not modelled: users, orders and
  submissions always decode. This drops:
  - `AdminMiddleware`'s 500;
  - `UpdateOrderStatus`'s and `UpdateUserProfile`'s 500;
  - the callback's "Failed to parse user data";
  - the skipped submissions in the current-case board.

  Catalog documents are decoded, and their failure path is modelled.
- `GetAllCatalogItems`, `GetAllCases`, `GetAllOrders` and `GetUserSubmissions`:
  only their `limit`/`offset` rules are modelled (`CatalogItemsPage`,
  `ListPage`, shared by cases and orders, and `UserSubmissionsPage`). Their ordered, paged
  queries and the per-order user-name lookups are Firestore work.
- The read-only lookups `GetCases`, `GetCaseByID`, `GetActiveCase`, `GetOrder`,
  `GetUserProfile`, `GetAllUsers` and `TestFirestore` are not modelled. They
  only read and return documents. The active case itself is a parameter of
  `SubmitCase` and `GetCurrentCaseLeaderboard`.
- `GoogleLogin`, `GetProfile`, `GetUserDataFromGoogle`, `InitAuth` and
  `ValidateJWT` belong to the OAuth and JWT libraries. The code exchange and
  token validation are parameters. The HMAC signature and `jwt` parsing are not
  modelled.
- `Auth.login` in `config.js` only performs a fetch and a page navigation, so it
  is not modelled.
- The `updateUserStats` goroutine runs after the response. The model runs it
  in sequence inside `SubmitCase`, so concurrent interleavings are not covered.
- Scoring.BasePoints: accuracy is an exact `real`, and `int(100 * accuracy * n)`
  is the exact truncation of `100·correct·n / total`. Go multiplies IEEE
  doubles, and the product often lands just below a whole number. With 3
  coffees and 1 of 6 answers correct, Go computes 49.99999999999999 and scores
  49 where the model scores 50. With 2 of 6 correct, Go scores 99 where the
  model scores 100. Such inputs are ordinary: 3 coffees with 2 enabled
  questions each.
- Scoring.CalculateScore: inherits both gaps, the exact arithmetic of
  BasePoints above and the corrected note rule below, and so do the score,
  accuracy, statistics and badges that Submissions.SubmitCase stores.
- Scoring.GetMatchedTastingNote: implements the corrected rule of the first
  Finding, where a note that is blank after trimming matches nothing. Go
  matches such a note to the first correct note (Scoring.MatchedNoteAsWritten).
  The two agree on every other note (Scoring.MatchedNoteAgrees).
- Scoring.TasteNotePoints: a tasting-note answer that is only white space
  scores 0. Go scores 1 when the coffee has a correct note, because it uses
  the rule as written.
- Scoring.ScoreTastingNotes: pays TasteNotePoints, so it has the same gap for
  blank notes.
- Scoring.AnswerPoints: counts tasting notes with TasteNotePoints, so it has
  the same gap for blank notes.
- Scoring.ScoreAnswer: equals AnswerPoints, so it has the same gap for blank
  notes.
- Scoring.CorrectAnswers: sums AnswerPoints, so it has the same gap for blank
  notes.
- Scoring.CountCorrectAnswers: equals CorrectAnswers, so it has the same gap
  for blank notes.
- Submissions.SubmitCase: scores with Scoring.CalculateScore, so a submission
  with a blank tasting note gets the corrected score, not Go's.
- Cases.UpdateCase: merges each update key as a top-level field. Go turns
  each key into a `firestore.Update` path (cases.go:112-121), and Firestore
  reads a path as dotted field names. So `{"enabled_questions.region": false}`
  sets a nested field in Go, while the model adds a new top-level key with
  that name.
- Submissions.MarkedOrderNotRedeemable: holds only for requests served one
  after another. `validateOrderID` and `markOrderIDAsUsed` are separate
  queries with no transaction. Two concurrent submissions with the same code
  can therefore both pass validation and both be stored. The model does not
  capture that interleaving.
- JSON numbers: `Json.JNum` holds only integers. Gin binds JSON numbers as
  `float64`, so Go can store a fractional value such as `display_order: 2.5`
  through `UpdateCatalogItem`. A later decode into the integer field then
  fails. The model cannot express that input.
- Strings are `seq<char>` with ASCII case folding and white space. Go's Unicode
  `ToLower`, `EqualFold` and `TrimSpace` and its byte-length `len` are not
  modelled for non-ASCII text.
- Firestore field keys. The keys of `CoffeeCase`, `EnabledQuestions` and
  `CatalogItem` (`enabled_questions`, `taste_note_1`, `display_order`, …) are
  assumed to follow the records' JSON tags. `models.go` is not part of this
  model beyond the records' shapes.
- Empty document IDs. Firestore's `Doc("")` gives no reference, so `Get` and
  `Set` with an empty user ID fail. `AdminMiddleware` then answers 401, and
  `GoogleCallback`'s `Set` answers 500. The model's collections accept "" as a
  document ID.
- Cases.NormalizedCoffees: UUIDs are a function of the coffee's position, so
  the model does not promise that UUIDs differ from each other.
- Generators.GenerateOrderID: draws are a function of the position, so
  uniqueness of codes is not modelled. The modulo bias of `byte % 36` is not
  stated.
- Auth.TokenLifetimeIsOneDay: requires the two clock reads to be less than one
  second apart. Larger gaps are not stated.
- ClientConfig.TokenLive: `exp` is an integer number of seconds; fractional
  `exp` values are not modelled.
- ClientConfig.Request: sends the corrected ClientConfig.Config of the second
  Finding. When a caller passes its own `headers`, `config.js` sends only
  those (ClientConfig.ConfigAsWritten). The four helpers pass none, and for
  them both configurations agree (ClientConfig.AsWrittenAgreesWithoutHeaders,
  ClientConfig.HelpersAuthorizeIffTokenStored). A network failure and an
  unreadable 2xx body are distinct errors without their messages. The
  `console.error` logging is left out.
- ClientConfig.IsAuthenticated: `decodeExp` stands for `JSON.parse(atob(…))`.
  A JWT payload is base64url-encoded, but `atob` decodes standard base64 and
  throws on `-` and `_`. A live token whose payload contains those characters
  therefore reads as logged out. The model takes whatever `decodeExp` gives
  and does not capture this rejection.
- `window.location.reload()` is a returned flag.

## Findings

| source | as written | input that shows it | evidently intended | confidence | as-written member | corrected member |
|---|---|---|---|---|---|---|
| backend/internal/handlers/submissions.go:576-609 | the emptiness check runs before trimming, and every note contains "" | user note " " against correct notes "miel" matches "miel" and scores a point | a note that is blank after trimming matches nothing | high, not executed | Scoring.BlankNoteMatchesAsWritten | Scoring.MatchedTastingNoteIsFirst |
| src/js/config.js:112-115 | `{headers, ...options}` lets `options.headers` replace the merged headers | `request(e, {headers: {"X-Trace": "1"}})` with token "t" sends no Authorization and no Content-Type | the caller's headers merged with the content type and bearer token | medium (latent: the four helpers pass no headers), not executed | ClientConfig.AsWrittenDropsAuthorization | ClientConfig.Config |
