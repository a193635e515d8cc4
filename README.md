# Video-chat matchmaking, modelled in Dafny

This project models the core of a random video-chat service. A socket server keeps users who are online and a queue of users searching for a partner. It pairs compatible searchers, or gives a lone searcher a filler ("fake") match after three seconds. It ends matches, relays signalling messages and files reports. In the browser, a chat session follows the server's events through `idle`, `requesting`, `matched` and `ended`. It retries a pending search and reconnects with a jittered backoff.

Around that core the project models:

- the coin ledger endpoint and the client calls that use it;
- the signed-in user's profile and the profile form, including `parseInt` and the validation schema;
- match recording: buffering, upload with retries, and linking the upload to the match;
- the filler-video loader with its retries;
- the in-call overlay's clock and badges;
- the three admin pages: matches, reports and users.

Each source file has one module:

| module | file | form |
|---|---|---|
| `Common` | `common.dfy` | shared `Option`, order-preserving filter, substring search, ASCII lower-casing |
| `SocketHandlers` | `handlers.dfy` | server state as a datatype with step functions, plus the class `MatchServer` whose methods update the same fields in place |
| `ChatClient` | `session.dfy` | client session as a datatype with step functions, plus the class `ChatSession` |
| `Transactions` | `transactions.dfy` | validation chain as functions, plus the class `Ledger` for the insert / update / roll-back sequence |
| `Auth` | `auth.dfy` | class `AuthSession` holding the user, the balance and the `users` table |
| `Recorder` | `recorder.dfy` | the upload loop as a method with invariants, the loader as a recursive function, and the class `RecordingSession` |
| `Profile` | `profile.dfy` | `parseInt`, `toString`, the schema and the submit sequence as functions |
| `Overlay` | `overlay.dfy` | clock arithmetic and the interval as functions over a view value |
| `MatchMonitoring`, `ReportViewer`, `UserManagement` | `matchmonitoring.dfy`, `reportviewer.dfy`, `usermanagement.dfy` | queries, searches and row actions as functions |

Conventions used throughout the model:

- Times are integer milliseconds.
- A JavaScript falsy string (`""`) is an unset filter.
- A Supabase `.single()` gives a row only when exactly one row matches.
- A store call that can fail has a flag parameter saying whether it fails.
- Randomness (`Math.random`, `uuidv4`) and clocks are parameters.

## Behaviour of the code worth knowing

- **Duration units.** A match's duration is the elapsed time divided by 1000 and floored, so it is in whole seconds (`SocketHandlers.DurationSeconds`).
- **Compatibility check.** A filter applies only when both the searcher and the candidate sent it. The code then compares the searcher's own stored attribute with the candidate's filter, not with the candidate's attribute (`SocketHandlers.Compatible`).
- **Queue after `end_match`.** The handler removes only the caller from the queue. The other peer's entry, if any, stays (`SocketHandlers.EndMatchNotifies`).
- **Fake-match retry.** After a fake match the client re-sends `find_match` without the user's filters. The server reads missing options as no filters (`ChatClient.FireStep`, `FakeRetry`).
- **Age parsing.** The profile form's age goes through `parseInt`, so `"25abc"` is read as 25 and `"0x1A"` as 26 (`Profile.ParseIntRoundTrip`, `Profile.Validate`).
- **Clock skew.** Under clock skew the overlay clock shows negative, unpadded fields, for example `-1:-5` (`Overlay.NegativeClock`).
- **Ignored write errors.** The handlers never read the `{ error }` of the `end_match` and `disconnect` updates or of the report insert. A failed update leaves the row unended while the peers are still told `match_ended`; a failed insert files nothing (`SocketHandlers.EndWrite`, `SocketHandlers.ReportStep`).

## Model

| member | source | states |
|---|---|---|
| SocketHandlers.Put | server/socket/handlers.js:46-49 | `Map.set`: an existing key keeps its place and takes the new value; a new key goes last; the result stays keyed |
| SocketHandlers.Delete | server/socket/handlers.js:226-227 | `Map.delete`: exactly the entries with other keys remain, and they keep their order (a subsequence) |
| SocketHandlers.DeleteSplits | server/socket/handlers.js:226-227 | deleting a present key removes exactly that one entry (multiset) |
| SocketHandlers.FirstCompatibleIsFirst | server/socket/handlers.js:196-227 | the scan pairs with the first compatible other entry in insertion order, and finds nothing only when none qualifies |
| SocketHandlers.ScanForPartner | server/socket/handlers.js:196-227 | the loop returns the index of the first compatible other entry, or none |
| SocketHandlers.ActiveMatch | server/socket/handlers.js:83-88 | the lookup yields only an unended match with the user as a peer, and nothing when the lookup fails |
| SocketHandlers.ActiveMatchFindsTheOne | server/socket/handlers.js:83-88 | conversely, when exactly one unended match has the user as a peer, the lookup yields that one |
| SocketHandlers.TwoActiveMatchesBlockEnd | server/socket/handlers.js:83-90 | with two unended matches for a user the lookup finds nothing, so neither can be ended |
| SocketHandlers.FakeMatchLeftOpenBlocksEnd | server/socket/handlers.js:83-88 | as written: a user who still has an unended match and gets a filler match has two unended rows, and a later `end_match` ends neither |
| SocketHandlers.EndAllActive | server/socket/handlers.js:82-100 | corrected end: every unended match of the user is ended with `now` and its duration, no other row changes, rows stay well formed |
| SocketHandlers.EndAllActiveAgrees | server/socket/handlers.js:83-100 | when the lookup finds the one unended match, the corrected end equals the end as written |
| SocketHandlers.Latest | server/socket/handlers.js:119-125 | the chosen row is among the candidates and no candidate started later |
| SocketHandlers.LatestBetweenMeaning | server/socket/handlers.js:119-125 | the report lookup finds nothing exactly when no match is between the two users, otherwise the latest one between them |
| SocketHandlers.EndActiveWellFormed | server/socket/handlers.js:90-100 | ending changes only the looked-up row, to `ended_at = now` and the floored elapsed seconds; no unended match of the user is left; nothing changes when the lookup finds none; every row stays well formed |
| SocketHandlers.EndActiveTwiceIsOnce | server/socket/handlers.js:141-164 | a second end or a duplicate disconnect writes nothing more |
| SocketHandlers.StepsPreserveValid | server/socket/handlers.js:8-183 | every handler keeps the queue keyed and every match row well formed |
| SocketHandlers.PairStepValid | server/socket/handlers.js:186-277 | pairing keeps the invariant |
| SocketHandlers.FillerStepValid | server/socket/handlers.js:279-314 | the filler keeps the invariant |
| SocketHandlers.BannedUserNeverQueued | server/socket/handlers.js:35-44 | a banned user, or one whose lookup fails, only gets `error`: queue, timers and tables unchanged |
| SocketHandlers.RequeueKeepsOneEntry | server/socket/handlers.js:46-49 | re-sending `find_match` keeps one entry per user, in its old place |
| SocketHandlers.PairingDequeuesBoth | server/socket/handlers.js:225-266 | a pairing removes exactly both peers from the queue and appends the row peer_a = searcher, peer_b = partner, not fake; the outbox gains exactly `match_ready` to the searcher and to the partner, then `match_found` to the searcher and to the partner, each naming the other with the other's stored attributes; users, reports, presence and timers are unchanged |
| SocketHandlers.DeleteTwoSplits | server/socket/handlers.js:226-227 | removing both peers drops exactly those two entries |
| SocketHandlers.RequeueMovesToEnd | server/socket/handlers.js:269-270 | re-setting both removed entries appends them, and the queue has the same entries as before |
| SocketHandlers.RollbackRestoresEntries | server/socket/handlers.js:267-273 | after a throw, both entries are back (same multiset), now last, with timers and presence unchanged; the row stays if it was inserted; the outbox gains exactly one `error` to the searcher and one to the partner |
| SocketHandlers.FillerIdleWhenGone | server/socket/handlers.js:279-280 | the filler does nothing once its user left the queue or went offline |
| SocketHandlers.FillerCreatesFakeMatch | server/socket/handlers.js:282-309 | the filler inserts a fake row with no second peer, dequeues the user, and sends `match_ready` then `fake_match`; each attribute is the wished-for one, or else the catalogue entry the random draw picks |
| SocketHandlers.EndMatchNotifies | server/socket/handlers.js:82-113 | the match table becomes the ended table, or stays when the write fails; the caller leaves the queue; the outbox gains `match_ended` to the other peer's current socket for a real match whose peer is online, then `match_ended` to the caller, and nothing else |
| SocketHandlers.SignalOnlyToOnline | server/socket/handlers.js:54-64 | a signal reaches the target's current socket exactly when the target is online |
| SocketHandlers.DisconnectForgetsUser | server/socket/handlers.js:144-145 | after `disconnect` the user is in neither table |
| SocketHandlers.DisconnectNotifies | server/socket/handlers.js:141-174 | `disconnect` drops the user from presence, ends the active match unless the write fails, marks only that user offline with `last_seen = now`, and tells exactly the online peer of a real match |
| SocketHandlers.ConnectRegistersOnlyIdentified | server/socket/handlers.js:9-16 | a connection without a user id is dropped and never registered |
| SocketHandlers.ReportUsesLatestMatch | server/socket/handlers.js:116-139 | a report is filed against the latest match between the two users, and only when one exists |
| SocketHandlers.MatchServer.constructor | server/socket/handlers.js:4-6 | both tables start empty |
| SocketHandlers.MatchServer.Connect | server/socket/handlers.js:8-29 | connection handler; accepted exactly when the id is non-empty |
| SocketHandlers.MatchServer.FindMatch | server/socket/handlers.js:31-52 | `find_match` handler, keeping the invariant |
| SocketHandlers.MatchServer.PairUp | server/socket/handlers.js:186-279 | `findMatch`: scan, pair, or arm the filler |
| SocketHandlers.MatchServer.Pair | server/socket/handlers.js:225-273 | dequeue, insert, then notify or roll back |
| SocketHandlers.MatchServer.FireFiller | server/socket/handlers.js:279-314 | the filler timer firing |
| SocketHandlers.MatchServer.Signal | server/socket/handlers.js:54-64 | `signal` relay |
| SocketHandlers.MatchServer.SetupMatch | server/socket/handlers.js:66-80 | `setup_match` answers with the row, or nothing on error |
| SocketHandlers.MatchServer.EndMatch | server/socket/handlers.js:82-114 | `end_match` handler: the new state is `EndMatchStep` of the old, whose effect `EndMatchNotifies` and `EndActiveWellFormed` state; the update may fail |
| SocketHandlers.MatchServer.ReportUser | server/socket/handlers.js:116-139 | `report_user` handler: the new state is `ReportStep` of the old (see `ReportUsesLatestMatch`); the insert may fail |
| SocketHandlers.MatchServer.Disconnect | server/socket/handlers.js:141-183 | `disconnect` handler: the new state is `DisconnectStep` of the old, whose effect `DisconnectNotifies` and `DisconnectForgetsUser` state; the update may fail |
| ChatClient.NextDelay | src/contexts/SocketContext.tsx:83-84 | the backoff never exceeds 30000 and lies between 1.5 and 1.7 times the delay, capped |
| ChatClient.BackoffStaysInRange | src/contexts/SocketContext.tsx:35-36 | the delay stays in [1000, 30000] and grows by at least 1.5 below the cap |
| ChatClient.Cancel | src/contexts/SocketContext.tsx:96-99 | a cleared timer no longer fires, every other timer is kept, and no timer is added |
| ChatClient.InitialValid | src/contexts/SocketContext.tsx:44-55 | the initial session meets the session invariant |
| ChatClient.ConnectionEventsPreserveValid | src/contexts/SocketContext.tsx:72-100 | connect, connect_error and disconnect keep the invariant |
| ChatClient.MatchFoundPreservesValid | src/contexts/SocketContext.tsx:107-124 | `match_found` keeps the invariant |
| ChatClient.MatchEndedPreservesValid | src/contexts/SocketContext.tsx:153-169 | `match_ended` keeps the invariant |
| ChatClient.MatchEventsPreserveValid | src/contexts/SocketContext.tsx:102-169 | every match event keeps the invariant |
| ChatClient.FakeMatchPreservesValid | src/contexts/SocketContext.tsx:126-151 | the `fake_match` handler keeps the invariant, whether it arms the retry or settles |
| ChatClient.ActionsPreserveValid | src/contexts/SocketContext.tsx:191-246 | the three user actions keep the invariant |
| ChatClient.FireStepValid | src/contexts/SocketContext.tsx:163-168 | firing any pending timer keeps the invariant |
| ChatClient.FindMatchOnlyFromIdle | src/contexts/SocketContext.tsx:191-214 | `findMatch` acts only when connected and idle; it then requests, resets the counter, sends the filters and arms one retry timer for 10000 ms |
| ChatClient.MatchFoundSettles | src/contexts/SocketContext.tsx:107-124 | `match_found` enters `matched` with the peer's data and a start time, and the pending retry no longer fires |
| ChatClient.EndThenResetIsIdle | src/contexts/SocketContext.tsx:216-236 | ending shows `ended`, and the 2000 ms timer brings back `idle` with no peer |
| ChatClient.EndMatchGuard | src/contexts/SocketContext.tsx:216-217 | `endMatch` outside `matched`/`requesting` changes nothing |
| ChatClient.DisconnectResets | src/contexts/SocketContext.tsx:88-100 | a transport disconnect leaves the session idle and empty |
| ChatClient.ReportNeedsPeer | src/contexts/SocketContext.tsx:238-246 | `reportUser` sends exactly when the socket is connected and the peer has a non-empty id; it then names that peer and changes nothing else, and otherwise changes nothing |
| ChatClient.FakeToleranceCounts | src/contexts/SocketContext.tsx:126-139 | below the limit, `n` fake matches count `n` attempts, send nothing and add exactly `n` retry timers with fresh ids, each for 10000 ms, the last one recorded as the search timeout |
| ChatClient.FakeRetryResends | src/contexts/SocketContext.tsx:130-139 | a fake match below the limit counts the attempt and arms one 10000 ms retry, recorded as the search timeout; when it fires, the timer is gone and `find_match` without filters is sent, and no other field changes |
| ChatClient.FakeToleranceSettles | src/contexts/SocketContext.tsx:126-151 | the sixth fake match in a row settles on the filler partner |
| ChatClient.StaleToleranceNeverSettles | src/contexts/SocketContext.tsx:126-151 | as registered, fake matches never settle |
| ChatClient.StaleSearchRetryNeverResends | src/contexts/SocketContext.tsx:204-210 | as registered, the search retry never re-sends |
| ChatClient.SearchRetryResends | src/contexts/SocketContext.tsx:191-214 | reading the live state, the retry re-sends the same filters and counts the attempt |
| ChatClient.ChatSession.constructor | src/contexts/SocketContext.tsx:44-55 | initial field values |
| ChatClient.ChatSession.Open | src/contexts/SocketContext.tsx:57-70 | the socket is created |
| ChatClient.ChatSession.OnConnect | src/contexts/SocketContext.tsx:72-76 | connected; delay reset |
| ChatClient.ChatSession.OnConnectError | src/contexts/SocketContext.tsx:78-86 | disconnected; delay backed off |
| ChatClient.ChatSession.OnDisconnect | src/contexts/SocketContext.tsx:88-100 | reset to idle, retry cleared |
| ChatClient.ChatSession.OnMatchReady | src/contexts/SocketContext.tsx:102-105 | sends `setup_match` |
| ChatClient.ChatSession.OnMatchFound | src/contexts/SocketContext.tsx:107-124 | enters `matched` |
| ChatClient.ChatSession.OnFakeMatch | src/contexts/SocketContext.tsx:126-151 | retries or settles |
| ChatClient.ChatSession.OnMatchEnded | src/contexts/SocketContext.tsx:153-169 | enters `ended` and arms the reset |
| ChatClient.ChatSession.OnNoMatches | src/contexts/SocketContext.tsx:171-175 | back to `requesting` |
| ChatClient.ChatSession.FindMatch | src/contexts/SocketContext.tsx:191-214 | `findMatch` |
| ChatClient.ChatSession.EndMatch | src/contexts/SocketContext.tsx:216-236 | `endMatch` |
| ChatClient.ChatSession.ReportUser | src/contexts/SocketContext.tsx:238-246 | `reportUser` |
| ChatClient.ChatSession.Fire | src/contexts/SocketContext.tsx:135-137 | a pending timer fires |
| Transactions.Abs | server/routes/transactionRoutes.js:120 | `Math.abs` on an integer |
| Transactions.CheckOrder | server/routes/transactionRoutes.js:61-145 | the checks run in order and the first failing one decides the status and message |
| Transactions.AcceptedArithmetic | server/routes/transactionRoutes.js:147-167 | an accepted request records ±\|amount\| and moves the balance by exactly that |
| Transactions.SpendNeverOverdraws | server/routes/transactionRoutes.js:133-150 | an accepted spend never makes the balance negative, and a spend is accepted exactly when the balance covers it |
| Transactions.SignIgnored | server/routes/transactionRoutes.js:120 | the sign of the amount never changes the verdict |
| Transactions.WithoutTx | server/routes/transactionRoutes.js:215-218 | the roll-back delete keeps exactly the rows with other ids, in order (a subsequence) |
| Transactions.DeleteUndoesInsert | server/routes/transactionRoutes.js:160-233 | rolling back a fresh row restores the table |
| Transactions.Ledger.Post | server/routes/transactionRoutes.js:59-250 | the route: answer, table and balance for every failure point; balances stay non-negative |
| Auth.NewUsername | src/contexts/AuthContext.tsx:94 | the given name, or "User" and at most six characters of the id |
| Auth.Merge | src/contexts/AuthContext.tsx:161-164 | `{...user, ...data}`: each field takes the update's value when the update carries it, and keeps the old one otherwise; the id and email are kept |
| Auth.MergeIdempotent | src/contexts/AuthContext.tsx:161-164 | the same update twice is the update once; an empty update changes nothing |
| Auth.MergeLaterWins | src/contexts/AuthContext.tsx:161-164 | two updates in a row equal one update with the second's keys on top |
| Auth.PurchaseAccepted | src/contexts/AuthContext.tsx:179-184 | the ledger always accepts the client's non-zero purchase and adds \|amount\| |
| Auth.SpendAgreesWithLedger | src/contexts/AuthContext.tsx:210-215 | the ledger accepts the client's spend exactly when the stored balance covers \|amount\| |
| Auth.AuthSession.constructor | src/contexts/AuthContext.tsx:45-49 | no user, ten coins, no error |
| Auth.AuthSession.Login | src/contexts/AuthContext.tsx:77-134 | creates the row with ten coins, or marks an existing row online and takes its profile and coins; on a failure only the error changes |
| Auth.AuthSession.Logout | src/contexts/AuthContext.tsx:136-156 | with a user and an update that does not reject, the session is cleared; the row is marked offline with `last_seen = now` unless the update resolves with an error; otherwise nothing changes |
| Auth.AuthSession.UpdateProfile | src/contexts/AuthContext.tsx:158-168 | merges the update into the signed-in user |
| Auth.AuthSession.AddCoins | src/contexts/AuthContext.tsx:170-199 | posts a purchase and adopts the answered balance, or records the error |
| Auth.AuthSession.SpendCoins | src/contexts/AuthContext.tsx:201-232 | refuses locally when the balance is short; otherwise posts a spend; true exactly when the ledger succeeds |
| Recorder.FirstSuccess | src/contexts/VideoContext.tsx:527-555 | the first successful attempt within the limit, with every earlier one failed |
| Recorder.UploadRecording | src/contexts/VideoContext.tsx:518-558 | at most three attempts, waiting 1000·k ms after the k-th failure; the URL of the first success, or one failure toast |
| Recorder.LoadVideo | src/contexts/VideoContext.tsx:251-338 | retries 2000 ms apart while fewer than three retries were made; the stream of the first success |
| Recorder.LoadAtMostFour | src/contexts/VideoContext.tsx:314-324 | a first load makes at most four attempts, and gives up only after four failures |
| Recorder.TotalPositive | src/contexts/VideoContext.tsx:440-452 | a buffer of non-empty chunks makes a non-empty blob exactly when it has a chunk |
| Recorder.TotalAppend | src/contexts/VideoContext.tsx:440-445 | appending a chunk adds its size |
| Recorder.RecordingSession.OnDataAvailable | src/contexts/VideoContext.tsx:440-445 | only non-empty chunks are kept, appended |
| Recorder.RecordingSession.OnStop | src/contexts/VideoContext.tsx:447-485 | the toasts and the `video_url` for each outcome; the buffer and match id are always reset |
| Recorder.RecordingSession.Save | src/contexts/VideoContext.tsx:452-473 | upload then link, with the toasts of each outcome |
| Recorder.RecordingSession.StopRecording | src/contexts/VideoContext.tsx:498-516 | a no-op unless recording; otherwise cancels the frame and stops an active recorder |
| Profile.TrimStart | src/components/auth/ProfileSetup.tsx:51 | `parseInt` skips leading white space: a suffix whose first character is not white space |
| Profile.DigitRun | src/components/auth/ProfileSetup.tsx:51 | the longest digit prefix |
| Profile.NatToString | src/components/auth/ProfileSetup.tsx:30 | `toString`: non-empty, all decimal digits |
| Profile.ValueOfNatToString | src/components/auth/ProfileSetup.tsx:30 | the digits denote the number |
| Profile.DigitRunStops | src/components/auth/ProfileSetup.tsx:51 | the digit run ends at the first non-digit |
| Profile.DecimalMagnitude | src/components/auth/ProfileSetup.tsx:51 | decimal text followed by a non-extending rest has that magnitude |
| Profile.NegativeRoundTrip | src/components/auth/ProfileSetup.tsx:51 | `parseInt("-" + n + rest)` is −n |
| Profile.NonNegativeRoundTrip | src/components/auth/ProfileSetup.tsx:51 | `parseInt(n + rest)` is n |
| Profile.ParseIntRoundTrip | src/components/auth/ProfileSetup.tsx:30-51 | `parseInt` reads back what `toString` writes, whatever non-digit, non-`x` text follows |
| Profile.NoDigitsIsNaN | src/components/auth/ProfileSetup.tsx:51 | text without a decimal digit is NaN |
| Profile.Validate | src/components/auth/ProfileSetup.tsx:49-52 | accepted exactly when the parsed form meets the schema, with the fields copied |
| Profile.EachRuleRejects | src/components/auth/ProfileSetup.tsx:9-15 | each schema rule alone rejects |
| Profile.ReopenValidates | src/components/auth/ProfileSetup.tsx:26-32 | a conforming stored profile, reopened in the form, validates to itself |
| Profile.PickImage | src/components/auth/ProfileSetup.tsx:37-42 | only an image file replaces the current one |
| Profile.Extension | src/components/auth/ProfileSetup.tsx:56 | the text after the last '.', preceded by a '.' when shorter than the name, or the whole name when it has no '.' |
| Profile.PicturePath | src/components/auth/ProfileSetup.tsx:56 | `<user id>/profile.<extension>` |
| Profile.Submit | src/components/auth/ProfileSetup.tsx:44-99 | a rejected form writes nothing; the user is updated exactly when the form is valid, the upload (if any) succeeded and the update succeeded; a failed upload writes only the upload, never the row |
| Profile.SubmitUpdatesUser | src/components/auth/ProfileSetup.tsx:72-89 | after success the user carries exactly the validated details and the picture URL |
| Profile.MergePatchOf | src/components/auth/ProfileSetup.tsx:80-89 | the update built from validated details sets every profile field and the picture |
| Overlay.JsRem | src/components/MatchOverlay.tsx:19 | JavaScript `%`: Euclidean for non-negative operands, in (−b, 0] otherwise |
| Overlay.PadStart | src/components/MatchOverlay.tsx:22 | `padStart`: left fill to the width, never truncating |
| Overlay.ClockFields | src/components/MatchOverlay.tsx:17-19 | whole seconds since the start; minutes and a remainder below 60 add back up |
| Overlay.ClockShape | src/components/MatchOverlay.tsx:17-23 | seconds field exactly two digits; minutes at least two, more from 100 minutes on |
| Overlay.FieldReadsBack | src/components/MatchOverlay.tsx:22 | a two-digit field reads back as its number |
| Overlay.NegativeClock | src/components/MatchOverlay.tsx:17-23 | five seconds before the start the clock shows `-1:-5` |
| Overlay.Badge | src/components/MatchOverlay.tsx:61-65 | a badge only for a non-empty gender: M, F or X |
| Overlay.BadgeClasses | src/components/MatchOverlay.tsx:63 | male is M, female is F, everything else X |
| Overlay.InitialIsZero | src/components/MatchOverlay.tsx:9 | the initial text is the zero-second clock |
| Overlay.Mount | src/components/MatchOverlay.tsx:9-14 | first shown as `00:00`, live |
| Overlay.StartChanged | src/components/MatchOverlay.tsx:13-30 | a new start replaces the interval but keeps the text; a falsy start runs none |
| Overlay.Tick | src/components/MatchOverlay.tsx:16-27 | a tick recomputes the seconds and flips the live indicator |
| Overlay.LiveAlternates | src/components/MatchOverlay.tsx:26 | the indicator flips on every tick |
| Overlay.ClockFollowsLatestTick | src/components/MatchOverlay.tsx:16-27 | the clock shows the time of the latest tick |
| Overlay.IdleOverlayFrozen | src/components/MatchOverlay.tsx:14 | without a start time the overlay never changes |
| UserManagement.ConstraintsExact | src/pages/admin/UserManagement.tsx:36-39 | one constraint for each filter that is set, both ways |
| UserManagement.ConstraintsOnly | src/pages/admin/UserManagement.tsx:36-39 | no other constraint |
| UserManagement.ConstraintsMeaning | src/pages/admin/UserManagement.tsx:34-41 | a row meets the query exactly when it meets every filter that is set |
| UserManagement.FetchMeaning | src/pages/admin/UserManagement.tsx:31-44 | a row is fetched exactly when wanted |
| UserManagement.Search | src/pages/admin/UserManagement.tsx:64-74 | empty term: all rows; otherwise exactly the rows whose lower-cased name or id contains the lower-cased term |
| UserManagement.SearchIsSubsequence | src/pages/admin/UserManagement.tsx:66 | the search keeps the order |
| UserManagement.SearchIgnoresCase | src/pages/admin/UserManagement.tsx:67-68 | the term's case never changes the result |
| UserManagement.SetBanned | src/pages/admin/UserManagement.tsx:76-84 | sets one row's flag; a failed update changes nothing |
| UserManagement.BanThenUnban | src/pages/admin/UserManagement.tsx:76-84 | ban then unban restores the flag and nothing else differs; banning twice is banning once |
| ReportViewer.Insert | src/pages/admin/ReportViewer.tsx:35 | inserting into a newest-first list keeps it newest first |
| ReportViewer.InsertAddsOne | src/pages/admin/ReportViewer.tsx:35 | inserting adds exactly the one row |
| ReportViewer.SortNewestFirst | src/pages/admin/ReportViewer.tsx:35 | newest first, a permutation of the rows |
| ReportViewer.FetchMeaning | src/pages/admin/ReportViewer.tsx:24-45 | newest first; exactly the unresolved rows, or all rows when resolved ones are shown |
| ReportViewer.Search | src/pages/admin/ReportViewer.tsx:70-83 | empty term: all rows; otherwise exactly the rows whose ids contain the term or whose lower-cased reason contains the lower-cased term |
| ReportViewer.SearchIsSubsequence | src/pages/admin/ReportViewer.tsx:73 | the search keeps the order |
| ReportViewer.IdsAreCaseSensitive | src/pages/admin/ReportViewer.tsx:74-77 | ids match with case, reasons without |
| ReportViewer.Actions | src/pages/admin/ReportViewer.tsx:198-218 | no buttons on a resolved report; otherwise resolve, plus ban exactly when a reported user is named |
| ReportViewer.ResolveReport | src/pages/admin/ReportViewer.tsx:85-94 | marks the rows with that id resolved; a failure changes nothing |
| ReportViewer.ResolvedLeavesDefaultView | src/pages/admin/ReportViewer.tsx:85-94 | a resolved report leaves the default list and offers no action |
| ReportViewer.BanActsOnReported | src/pages/admin/ReportViewer.tsx:96-105 | the ban button bans the reported user |
| MatchMonitoring.ConstraintsExact | src/pages/admin/MatchMonitoring.tsx:36-63 | "all" adds no date constraint, any other range one; each flag adds one constraint exactly when set |
| MatchMonitoring.ConstraintsOnly | src/pages/admin/MatchMonitoring.tsx:36-63 | no other constraint |
| MatchMonitoring.ConstraintsMeaning | src/pages/admin/MatchMonitoring.tsx:36-63 | a row meets the query exactly when it meets the panel |
| MatchMonitoring.FetchMeaning | src/pages/admin/MatchMonitoring.tsx:33-67 | a row is fetched exactly when wanted |
| MatchMonitoring.Search | src/pages/admin/MatchMonitoring.tsx:93-104 | empty term: all rows; otherwise exactly the rows whose id or non-empty peer contains the term |
| MatchMonitoring.SearchIsSubsequence | src/pages/admin/MatchMonitoring.tsx:95 | the search keeps the order |
| MatchMonitoring.SearchIsCaseSensitive | src/pages/admin/MatchMonitoring.tsx:95-99 | the match search is case-sensitive |
| MatchMonitoring.Single | src/pages/admin/MatchMonitoring.tsx:108-112 | a found row is in the table and has that id |
| MatchMonitoring.SingleMeaning | src/pages/admin/MatchMonitoring.tsx:108-112 | `.single()` finds a row exactly when one position has the id, and then it is that row |
| MatchMonitoring.EndMatch | src/pages/admin/MatchMonitoring.tsx:106-129 | nothing changes when the lookup fails or the update fails; otherwise the row with the id gets `ended_at = now` and the floored elapsed seconds from its start; other rows never change |
| MatchMonitoring.EndMatchAgreesWithServer | src/pages/admin/MatchMonitoring.tsx:114-124 | the ended row gets `now` and the same duration the server records, nothing else |
| MatchMonitoring.EndMatchKeepsRowsWellFormed | src/pages/admin/MatchMonitoring.tsx:106-129 | ending from the admin page keeps rows well formed in the server's sense |
| MatchMonitoring.DurationLabelCases | src/pages/admin/MatchMonitoring.tsx:299 | "N seconds" exactly when the duration is truthy |
| MatchMonitoring.StatusLabel | src/pages/admin/MatchMonitoring.tsx:304-306 | "Ended" exactly when ended, otherwise "Active" |
| MatchMonitoring.ZeroSecondMatchShownInProgress | src/pages/admin/MatchMonitoring.tsx:299 | as written, a match ended within its first second shows "In progress" beside "Ended" |
| MatchMonitoring.EndedDurationAgreesWithStatus | src/pages/admin/MatchMonitoring.tsx:299-306 | keyed on `ended_at`, the duration cell never contradicts the status |
| Common.Filter | src/pages/admin/MatchMonitoring.tsx:95 | `Array.filter`: exactly the elements satisfying the predicate, never more |
| Common.FilterCounts | src/pages/admin/MatchMonitoring.tsx:95 | `Array.filter` keeps each accepted element as often as it occurs and drops every other one (multiset) |
| Common.AfterLast | src/components/auth/ProfileSetup.tsx:56 | `split(sep).pop()`: a suffix with no separator, the whole text when there is none |
| Common.LowerIdempotent | src/pages/admin/UserManagement.tsx:67-68 | lower-casing twice is lower-casing once |

## Left out

- Media: WebRTC, the camera and microphone, canvas compositing, the audio graph and `startRecording` are not modelled. A chunk is its byte size, and an upload or load attempt is a success or failure flag.
- `fetchRandomVideo` and the choice of filler video are not modelled. They are I/O against storage.
- Supabase internals are not modelled: SQL, row-level security, and the order of rows with equal `created_at`. The sort keeps table order for ties, and a query without an order keeps table order.
- Realtime subscriptions that re-run a fetch are not modelled. Each fetch is a function of the table.
- `console` logging is not modelled.
- `localStorage` (AuthContext.tsx:51-75, 127, 148-150 and 167) is not modelled.
- The admin flag's source is not modelled.
- `alert`/`confirm` dialogs, `handleDeleteMatch`, `handleDeleteUser`, `handleFlagMatch` and `handleViewRecording` are not modelled. They are a confirmation around one delete, or only UI.
- The date-range cutoffs of the match list are parameters (`MatchMonitoring.Cutoffs`). They are local-time calendar arithmetic in the browser.
- JavaScript numbers are unbounded integers here. Fractional ages, `Infinity` and precision loss past 2^53 are not modelled.
- Strings are sequences of Dafny characters, which are Unicode scalar values. JavaScript lengths, and the zod `min`/`max` limits at src/components/auth/ProfileSetup.tsx:10, count UTF-16 code units, so a character outside the Basic Multilingual Plane counts once here and twice in the code. Only ASCII letters are lower-cased.
- Exceptions other than the modelled store failures are not modelled, for example a failing `response.json()`.
- React rendering, loading flags and animation are not modelled.
- `ChatClient.ConnectErrorStep`: backs off from the current delay. The registered handler reads the delay captured when the socket was created, so as written every failure computes its delay from 1000 ms.
- `ChatClient.MatchFoundStep`, `ChatClient.MatchEndedStep`, `ChatClient.TransportDisconnectStep`: these clear the pending search timeout by its current value. The registered handlers read the `searchTimeout` captured at registration, which is `null`, so as written they cancel nothing.
- `ChatClient.FireStep`: the search retry reads the current state. The as-written capture is modelled separately by `ChatClient.StaleSearchRetryFire`.
- `ChatClient.FakeMatchStep`: reads the current counter. The as-written capture is modelled separately by `ChatClient.StaleFakeMatchStep`.
- `SocketHandlers.MatchServer.PairUp`: the awaited profile lookups inside the scan are one lookup. Concurrent `find_match` handlers interleaving across `await` points are not modelled; each handler runs to completion.
- `SocketHandlers.MatchServer.PairUp`: the scan's lookups of the searcher's own gender and country (handlers.js:201-218) always succeed here. When one resolves with `{ error }`, `user` is null, so the code skips every candidate whose filter meets a filter of the searcher; the model reads the stored row.
- `SocketHandlers.MatchServer.Pair`: the two profile lookups before `match_found` (handlers.js:244-247) either succeed or throw here. When one resolves with `{ error }`, the code sends that `match_found` with undefined gender and country; the model sends the stored attributes.
- `ChatClient.FireStep`: each timer records its delay, but the clock is not modelled, so any pending timer may fire next.
- `Recorder.LoadVideo`: which of error, timeout or refused playback ends an attempt is not distinguished. Each is one failed attempt.
- `Auth.Merge`: `updateProfile(data: any)` spreads whatever keys it is given, `id` and `email` included. The model's update value cannot carry those two keys, so "the id and email are kept" holds for the profile updates the callers make, not for every object.
- `Transactions.Ledger.Post`: concurrent requests can interleave between the balance read (transactionRoutes.js:95), the insert (162) and the balance update (196). `Transactions.SpendNeverOverdraws` holds only when requests for one user are served one after another.
- The presence writes of `connect` and `disconnect` are always applied. Their `{ error }` is not read, and a failure of them is not modelled.

## Findings

| source | as written | input that shows it | evidently intended | confidence | as-written member | corrected member |
|---|---|---|---|---|---|---|
| src/contexts/SocketContext.tsx:126-151 | the `fake_match` handler tests `searchAttempts` captured when the socket was created (0) | six or more `fake_match` events in a row: the handler keeps arming retries and never settles | after five fake matches, settle on the filler partner | medium (not executed) | ChatClient.StaleToleranceNeverSettles | ChatClient.FakeToleranceSettles |
| src/contexts/SocketContext.tsx:204-210 | the retry timer tests the `chatState` captured when `findMatch` ran, which is always `idle` | `findMatch` in `idle`, then no answer for 10 s: the timer fires and sends nothing | re-send `find_match` while still `requesting` | medium (not executed) | ChatClient.StaleSearchRetryNeverResends | ChatClient.SearchRetryResends |
| src/pages/admin/MatchMonitoring.tsx:299 | the duration cell tests `match.duration` for truthiness | a match started at 5000 ms and ended at 5999 ms: duration 0, so the row shows "In progress" beside "Ended" | show "0 seconds" for an ended match | medium (not executed) | MatchMonitoring.ZeroSecondMatchShownInProgress | MatchMonitoring.EndedDurationAgreesWithStatus |
| server/socket/handlers.js:83-88 | `end_match` and `disconnect` end a match only when `.single()` finds exactly one unended match of the user, while a fake match the client searches past (src/contexts/SocketContext.tsx:126-137 re-sends `find_match` without `end_match`) is never ended | a user gets a fake match; the client's retry sends `find_match`; three seconds later the filler inserts a second fake match; `end_match` now finds two unended rows and ends neither | end every unended match of the user, so that a user has at most one | medium (not executed) | SocketHandlers.FakeMatchLeftOpenBlocksEnd | SocketHandlers.EndAllActive |

The server steps keep `end_match` and `disconnect` as written, because the rest of the server model states what those handlers do. `SocketHandlers.EndAllActiveAgrees` shows that the corrected end differs from them only when the lookup finds nothing.
