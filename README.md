# IELTS mock test: a Dafny model of the server routes and the test page

This project models the core of a small web application that serves a
30-question multiple-choice English test and scores it. It covers these parts:

- **Scoring.** The fixed question bank with its answer key. The strict-equality
  scoring loop of `POST /api/test/submit`. The raw-score-to-band table
  (`calculateBandScore`). The two projections `GET /questions`, which has no
  answers, and `GET /answers`, which holds only the answers.
- **Authentication.** The parsing of the `Authorization` header by the test
  routes' middleware, and by the admin gate, which also checks the role.
  The middleware is composed with each of the four read routes, and the
  admin gate with each admin route.
  `POST /register` and `POST /login` run over the users table. bcrypt and JSON
  Web Tokens are uninterpreted functions: the `Crypto` value passed in.
- **Storage.** The two tables (`users`, `results`) and their schema
  constraints: primary keys, the UNIQUE username, the role default 'user' and
  the foreign key from results to users. `Store` is a class holding the two
  tables and their AUTO_INCREMENT counters. The route handlers are
  module-level methods that take a `Store`, change its fields in place and
  keep the constraints (`Store.Valid`).
- **Aggregates.** The leaderboard query (JOIN, GROUP BY, ORDER BY, LIMIT 10) as
  a pure function over the rows. The history query. The admin statistics and
  the user list.
- **Deletes.** The admin's cascade delete of a user and their results, with
  "nothing else changes" postconditions.
- **Client.** The test page's state (`TestSession.Session`): option selection,
  Next/Prev navigation, the request body with its -1 sentinel, and the
  answer-review check.

Bands are integer tenths: band 8.5 is `85`. Timestamps are integers the
caller supplies. Strings compare exactly.

Notes on the code's behaviour that the model keeps:

- The vector `[2,2,2,2,0,1,2,1,1,1,0,1,1,0,0,0,1,0,2,0,0,2,0,0,0,1,2,1,0,1]`
  differs from the key in `backend/routes/test.js` at question ids 4, 24 and
  25, so it scores 27 (band 8.5), not 30. `Scoring.VectorOffByThreeScores27`
  states this.
- The leaderboard groups by (user, test date), not by user alone. A user can
  therefore appear once per distinct submission time.
- The admin gate answers an unverifiable token with 400, while a missing
  token and a token whose user is gone get 401.
- Deleting a user is two separate statements, not one atomic step. The model
  runs them in sequence on one store; nothing happens between them.

## Model

| member | source | states |
|---|---|---|
| Scoring.BankShape | backend/routes/test.js:44-75 | the bank has 30 questions with ids 1..30 in order, each with four options and a key option in 0..3 |
| Scoring.BandScore | backend/routes/test.js:28-41 | every band is one of the twelve published values, between 0 and 90 |
| Scoring.BandFollowsTable | backend/routes/test.js:28-41 | the band is the one of the first threshold, in descending order, that the score reaches, and 0 below all of them |
| Scoring.FirstMatchSkips | backend/routes/test.js:28-41 | thresholds the score does not reach are passed over by the first-match lookup |
| Scoring.BreakpointsDescend | backend/routes/test.js:29-39 | the thresholds strictly descend down the chain, and so do the bands they return |
| Scoring.BandMonotone | backend/routes/test.js:28-41 | a higher raw score never gets a lower band |
| Scoring.BandBoundaries | backend/routes/test.js:28-41 | the band at both ends of every step, from 0..3 (band 0) to 29..30 (band 90) |
| Scoring.BandOnto | backend/routes/test.js:28-41 | every published band is reached by some score between 0 and 30 |
| Scoring.BandOfMax | backend/routes/test.js:28-41 | the band of the larger of two scores is the larger of their bands |
| Scoring.Matches | backend/routes/test.js:95-100 | the count of correct answers among the first n questions is at most n |
| Scoring.MatchesCountsMatchSet | backend/routes/test.js:95-100 | the score is the number of positions whose answer is exactly the key's integer |
| Scoring.MatchesIgnoresExtra | backend/routes/test.js:96 | answers beyond the 30th are ignored |
| Scoring.MatchesMissingAreWrong | backend/routes/test.js:97 | positions past the end of a short array count as wrong |
| Scoring.MatchesOfKey | backend/routes/test.js:95-100 | an array agreeing with the key everywhere scores full marks |
| Scoring.MatchesOfNone | backend/routes/test.js:95-100 | an array agreeing with the key nowhere scores 0 |
| Scoring.ScoreAnswers | backend/routes/test.js:95-100 | the loop's score is the number of strict matches against the key over the 30 questions, at most 30 |
| Scoring.KeyScoresFull | backend/routes/test.js:95-102 | submitting the key itself, with anything appended, scores 30 and band 90 |
| Scoring.BlankScoresZero | backend/routes/test.js:95-102 | an all-unanswered (-1) submission scores 0 and band 0 |
| Scoring.VectorOffByThreeScores27 | backend/routes/test.js:44-75 | a vector that differs from the key at ids 4, 24 and 25 scores 27, band 85 |
| Scoring.ClientQuestions | backend/routes/test.js:78-85 | 30 questions with ids 1..30 and four options each, and no answer field |
| Scoring.Solutions | backend/routes/test.js:155-161 | 30 solutions with ids 1..30, each an option index 0..3 |
| Scoring.ProjectionsRebuildBank | backend/routes/test.js:78-85 | the two projections together give back the bank: id, text and options from one, the key from the other |
| Common.Split | backend/routes/test.js:16 | `split` yields at least one field and no field holds the separator |
| Common.JoinSplit | backend/routes/test.js:16 | joining the fields of a split with its separator gives back the string |
| Common.SplitWithoutSeparator | backend/routes/test.js:16 | a string without the separator splits into itself alone |
| Common.SplitAfterWord | backend/routes/test.js:16 | a word before the first separator becomes the first field |
| Common.SecondField | backend/routes/admin.js:11 | `split(' ')[1]`: when it exists it is the second field of the split and holds no space |
| Common.SecondFieldExists | backend/routes/admin.js:11 | `split(' ')[1]` exists exactly when the header holds a space |
| Common.SecondFieldOfCredentials | backend/routes/admin.js:11 | for `<scheme> <token>` without inner spaces, the second field is the token |
| Rows.Filter | backend/routes/admin.js:69 | a WHERE filter keeps each row that satisfies the condition, as many times as it occurs, and drops the others |
| Rows.FilterKeepsPairwise | backend/database.js:24-25 | a filtered table keeps the key constraints of the original |
| Rows.FilterKeepsAllIffAllPass | backend/routes/admin.js:73-75 | a DELETE changes no row exactly when every row fails its condition |
| Rows.PairwiseAppend | backend/database.js:24-25 | an inserted row whose key differs from every existing key keeps the constraint |
| Rows.Insert | backend/routes/test.js:126 | inserting into an ordered list keeps it ordered and adds exactly that row |
| Rows.Sort | backend/routes/test.js:126 | ORDER BY returns the same rows, ordered |
| Rows.PermutationLength | backend/routes/test.js:126 | a reordering has the same length |
| Rows.PrefixMultiset | backend/routes/test.js:145 | LIMIT returns no row more often than the sorted list holds it |
| Rows.SortedPrefixPrecedes | backend/routes/test.js:144-145 | in a sorted list, every row LIMIT keeps ranks at or above a row it cut |
| Database.FindUserById | backend/routes/admin.js:21 | the lookup by id finds a stored row with that id, and finds none exactly when no row has it |
| Database.FindByUsername | backend/routes/auth.js:45 | the lookup by name finds a stored row with that name, and finds none exactly when no row has it |
| Database.FindByUsernameAppend | backend/routes/auth.js:20 | a row inserted under a new name is then found by that name |
| Database.FindUserByIdAppend | backend/routes/auth.js:20 | inserting a row does not change what an existing id finds |
| Database.UsernameHeldOnce | backend/database.js:25 | under the UNIQUE constraint a username is held by exactly one row, or by none |
| Database.Store.constructor | backend/database.js:22-52 | the seeded store holds only the admin row, id 1, role admin, with the password hashed; it meets every schema constraint |
| TestRoutes.BearerToken | backend/routes/test.js:12-16 | a token is taken exactly when the header exists and starts with `Bearer `, and it is the header's second space-separated field |
| TestRoutes.BearerTokenOfClientHeader | backend/routes/test.js:16 | the header the client sends, `Bearer <token>`, yields that token |
| TestRoutes.Authenticate | backend/routes/test.js:9-25 | 401 "No token provided" exactly when no Bearer token is present; 401 "Invalid token" when the token does not verify; a pass exactly when it verifies, carrying its claims |
| TestRoutes.Submit | backend/routes/test.js:88-120 | 401 and 400 leave the store untouched; otherwise one result is appended with the next id, the strict-match score and its band, and the reply echoes them with total 30; a missing owner is refused (500) by the foreign key |
| TestRoutes.History | backend/routes/test.js:123-134 | exactly the caller's results, each as often as stored, newest first |
| TestRoutes.GetQuestions | backend/routes/test.js:78-85 | 200 with the answer-free questions exactly when the middleware passes; otherwise the middleware's 401 |
| TestRoutes.GetAnswers | backend/routes/test.js:155-161 | 200 with the solutions exactly when the middleware passes; otherwise the middleware's 401 |
| TestRoutes.GetHistory | backend/routes/test.js:123-134 | 200 with the history of the user the token names exactly when the middleware passes; otherwise the middleware's 401 |
| TestRoutes.GetLeaderboard | backend/routes/test.js:137-152 | 200 with the board, the same for every caller, exactly when the middleware passes; otherwise the middleware's 401 |
| Leaderboard.JoinUsers | backend/routes/test.js:141-142 | every joined row comes from a result, and every result with an owner is joined |
| Leaderboard.Best | backend/routes/test.js:140 | MAX over a group is absent exactly when no row has the group's key |
| Leaderboard.BestIsMaximum | backend/routes/test.js:140 | MAX over a group is a value of some row of the group and at least every row's value; an empty group has none |
| Leaderboard.AddRowShape | backend/routes/test.js:143 | a row starts a new group when its key is new, and otherwise updates only its own group |
| Leaderboard.BestAppend | backend/routes/test.js:140 | one more row raises its own group's MAX only |
| Leaderboard.BestAppendAll | backend/routes/test.js:140 | the same, for every group and both columns at once |
| Leaderboard.AddRowToGroup | backend/routes/test.js:140-143 | a row whose key has a group raises that group's maxima and keeps the grouping |
| Leaderboard.AddRowNewGroup | backend/routes/test.js:140-143 | a row with a new key opens its own group and keeps the grouping |
| Leaderboard.AddRowGroups | backend/routes/test.js:140-143 | folding one more row in keeps one group per key, holding that key's MAX score and MAX band |
| Leaderboard.GroupRows | backend/routes/test.js:140-143 | one group per distinct (user id, username, test date), each with the group's highest score and highest band |
| Leaderboard.RanksAboveIsTotalPreorder | backend/routes/test.js:144 | score descending, then date ascending, is a total preorder |
| Leaderboard.Candidates | backend/routes/test.js:140-143 | the grouped join of results with users |
| Leaderboard.Ranked | backend/routes/test.js:144 | the groups reordered, by score descending then date ascending |
| Leaderboard.Top | backend/routes/test.js:144-145 | at most 10 groups (fewer only when fewer exist), ordered, each one a group |
| Leaderboard.LeftOutRanksLower | backend/routes/test.js:144-145 | a group missing from the board means the board is full and that every listed group ranks at or above it |
| Leaderboard.Board | backend/routes/test.js:137-152 | entry i is username, highest score, highest band and date of the i-th of the top groups; at most 10 entries, by score descending and, at equal score, by date ascending |
| Leaderboard.BoardRowsAreGroups | backend/routes/test.js:140-143 | every entry is the username, highest score, highest band and date of a real group |
| Leaderboard.TopKeysDistinct | backend/routes/test.js:143 | no group appears twice on the board |
| Leaderboard.DistinctKeysOnce | backend/routes/test.js:143 | groups with distinct keys occur once each |
| Leaderboard.BestBandIsBandOfBestScore | backend/routes/test.js:140 | when bands derive from scores, a group's highest band is the band of its highest score |
| Leaderboard.BoardBandsMatchScores | backend/routes/test.js:140 | every board entry's highest band is the band of its highest score |
| AdminRoutes.AdminToken | backend/routes/admin.js:10-11 | a token exists exactly when a non-empty header has a non-empty second space-separated field, whatever its scheme, and it is that field |
| AdminRoutes.AuthenticateAdmin | backend/routes/admin.js:9-34 | 401 "Access denied. No token provided." exactly when there is no token; 400 exactly when it does not verify; 401 "Invalid token." when no stored row has its user id; 403 when the stored row's role is not admin; a pass, with its claims, exactly when it names a stored admin row |
| AdminRoutes.GateIgnoresScheme | backend/routes/admin.js:11 | the admin gate takes the token under any scheme, while the test routes take only `Bearer` |
| AdminRoutes.BearerPrefixMeansBearer | backend/routes/test.js:12 | a space-free scheme followed by a space starts with `Bearer ` only if it is `Bearer` |
| AdminRoutes.GateDependsOnStoredRow | backend/routes/admin.js:21-27 | the gate decides by the stored row the token's id finds, not by anything in the token |
| AdminRoutes.DemotedAdminIsForbidden | backend/routes/admin.js:25-26 | a valid token of a user whose stored role is not admin is refused with 403 |
| AdminRoutes.FindUserByIdUnique | backend/routes/admin.js:21 | with unique ids, the lookup by a row's id finds that row |
| AdminRoutes.GetStats | backend/routes/admin.js:40-54 | totalTests counts every result; the average is reported as 0 exactly when there are no results or every band is 0, and otherwise as the band sum over the result count |
| AdminRoutes.UserCountAppend | backend/routes/admin.js:41 | totalUsers counts role-'user' rows only: an admin row adds nothing |
| AdminRoutes.AverageZeroWhenAllBandsZero | backend/routes/admin.js:50 | with derived bands, the band sum is 0 exactly when every result has band 0 |
| AdminRoutes.SumBandsNonNegative | backend/routes/admin.js:44 | with derived bands, the band sum is never negative |
| AdminRoutes.GetStatsRoute | backend/routes/admin.js:37-54 | 200 with the counts exactly when the admin gate passes; otherwise the gate's status and message |
| AdminRoutes.ListUsersRoute | backend/routes/admin.js:37-62 | 200 with the user list exactly when the admin gate passes; otherwise the gate's status and message |
| AdminRoutes.ListUsers | backend/routes/admin.js:57-62 | as many entries as plain users, newest sign-up first |
| AdminRoutes.ListUsersIsExactlyThePlainUsers | backend/routes/admin.js:58 | the list holds the id, username and creation time of exactly the role-'user' rows |
| AdminRoutes.StatsCountListedUsers | backend/routes/admin.js:41-58 | the dashboard's user count equals the length of the user list |
| AdminRoutes.DeletionKeepsValid | backend/routes/admin.js:65-80 | deleting a user's results, then the user, keeps every schema constraint, the foreign key included |
| AdminRoutes.DeleteUser | backend/routes/admin.js:65-80 | the user's results and the user's row are removed, nothing else changes, and the reply is 404 exactly when no row had that id, otherwise 200 |
| AdminRoutes.FilterRemovesFound | backend/routes/admin.js:75 | the delete changes a row exactly when a row with that id exists |
| AdminRoutes.DeleteUserRoute | backend/routes/admin.js:37-80 | a request the gate refuses gets the gate's reply and changes nothing; one it admits removes the user's results and row, keeps the counters, and gets 404 exactly when no row had the id, otherwise 200 |
| AdminRoutes.DeletedUserLeavesNoTrace | backend/routes/admin.js:69-73 | after the delete, no row has the id, no result names it and its history is empty |
| AdminRoutes.DeletionKeepsOthers | backend/routes/admin.js:69-73 | every other user and every other user's result is kept, as often as before |
| AuthRoutes.Register | backend/routes/auth.js:10-35 | 400 for a missing field and 400 for a taken name, the store untouched; otherwise one row with the next id, the password's hash and role 'user', reply 201 with that id; the constraints are kept |
| AuthRoutes.Login | backend/routes/auth.js:38-69 | 400 for a missing field; with both fields present, an unknown name and a failed compare both give 401 "Invalid credentials"; success exactly when the name is stored and the password matches its hash, with a token signed over that row's id and name |
| AuthRoutes.LoginAfterRegister | backend/routes/auth.js:18-61 | logging in with the credentials just registered succeeds with a token for the new id |
| AuthRoutes.LoginTokenOpensTestRoutes | backend/routes/auth.js:61-66 | the login token sent as `Bearer <token>` passes the test routes' middleware with the login's id and name |
| TestSession.AnswerAt | frontend/src/components/TestInterface.jsx:68 | a value other than -1 is the recorded pick; when every pick is an option index, -1 means exactly that the question is unanswered |
| TestSession.SubmissionOf | frontend/src/components/TestInterface.jsx:66-69 | the request body has one entry per question |
| TestSession.RunStaysReachable | frontend/src/components/TestInterface.jsx:46-63 | after any sequence of clicks the page offers (option buttons of the shown question, Next, Prev), the index stays on a question and every answer is keyed by a question and is one of that question's option positions |
| TestSession.ReachableOnServerQuestions | frontend/src/components/TestInterface.jsx:223-227 | on the server's 30 questions every recorded answer is a question index 0..29 and an option 0..3 |
| TestSession.NavigationUndoes | frontend/src/components/TestInterface.jsx:53-63 | Prev undoes Next except on the last question, and Next undoes Prev except on the first |
| TestSession.LastPickWins | frontend/src/components/TestInterface.jsx:46-51 | a second pick on the same question replaces the first |
| TestSession.SubmissionKeepsAnswers | frontend/src/components/TestInterface.jsx:66-69 | an entry is -1 exactly where the question was not answered, and holds the pick where it was |
| TestSession.FindSolution | frontend/src/components/TestInterface.jsx:109 | the key entry found has the question's id; none is found exactly when the key lists no such id |
| TestSession.FindSolutionAt | frontend/src/components/TestInterface.jsx:109 | `find` returns the first entry with the id |
| TestSession.IsCorrect | frontend/src/components/TestInterface.jsx:108-110 | a question marked correct has a key entry with its id whose option is the submitted value |
| TestSession.UnansweredIsWrong | frontend/src/components/TestInterface.jsx:108-110 | an unanswered question is marked wrong in the review |
| TestSession.CorrectCount | frontend/src/components/TestInterface.jsx:107-110 | at most n of the first n questions are marked correct |
| TestSession.ReviewStep | frontend/src/components/TestInterface.jsx:107-110 | on the server's questions and key, question i is marked correct exactly when the server's strict comparison counts position i of the submitted array |
| TestSession.ReviewAgreesWithScore | frontend/src/components/TestInterface.jsx:107-110 | with the server's questions and key, the review marks exactly as many questions correct as the server scores for the submitted array |
| TestSession.Session.constructor | frontend/src/components/TestInterface.jsx:7-10 | the page starts on question 0 with no answers |
| TestSession.Session.SelectOption | frontend/src/components/TestInterface.jsx:46-51 | the pick is recorded for the shown question only; called from the shown question's option buttons, it keeps every answer one of its question's options |
| TestSession.Session.HandleNext | frontend/src/components/TestInterface.jsx:53-57 | the index advances by one unless on the last question; the answers are unchanged |
| TestSession.Session.HandlePrev | frontend/src/components/TestInterface.jsx:59-63 | the index goes back by one unless on the first question; the answers are unchanged |
| TestSession.Session.SubmitData | frontend/src/components/TestInterface.jsx:66-69 | one entry per question: the picked option, or -1 |

## Left out

- HTTP, Express routing, JSON parsing, logging and the React rendering are not modelled. Handlers receive the decoded header and body as parameters, and the client's network calls are left out.
- Storage failures are not modelled: the "Database error" and "Server error" 500 replies, `process.exit` at start-up, and a failing bcrypt. The 500 of `/submit` is modelled only for its one logical cause, the missing owner.
- Connection handling in the database file is not modelled. It exports a promise pool, while the auth and admin routes call callback methods (`db.run`, `db.get`, `db.all`) on it. The model gives those calls their evident SQL meaning.
- bcrypt and JWT internals are not modelled: salt, cost, signature algorithm, secrets and the one-day expiry. The `Crypto` value's functions are arbitrary, and the facts about them are stated as lemma preconditions.
- Floating point is not modelled. Bands are integer tenths. `AdminRoutes.GetStats`: the average is returned as the exact pair (band sum, count), not rounded to one decimal with `toFixed(1)`.
- MySQL's case-insensitive default collation is not modelled. Username lookups and uniqueness use exact string equality.
- Type coercion in the routes is not modelled. `DeleteUser` takes the id as an integer, not the path string MySQL would coerce. `/register` and `/login` take the fields as optional strings. A non-string truthy body field is not modelled.
- Leaderboard.Top: the order among groups with equal score and equal date is not fixed, because SQL leaves it unspecified.
- Leaderboard.JoinUsers: the join takes the first user row with the id, which is the only one under the primary key.
- Concurrency between requests is not modelled. Each handler runs alone on the store. The two statements of the delete run back to back.
- The store's `created_at` and `test_date` defaults are passed in as `now`.
- The page's loading, submitting, result and review flags are not modelled, and neither is its redirect on a 401. The review view is modelled only through its per-question correctness check.
- AuthRoutes.Register: the users counter advances only when a row is inserted. InnoDB also spends an AUTO_INCREMENT value on an insert the UNIQUE constraint refuses, so later ids can be larger than the model's.
- TestRoutes.Submit: the results counter advances only when a row is inserted. InnoDB also spends an AUTO_INCREMENT value on an insert the foreign key refuses, so later result ids can be larger than the model's.
