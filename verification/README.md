# Papo backend: models and proofs of its long-running invariants

This project models, in Dafny, the parts of the Papo chat backend that must keep an invariant over
unbounded runs, and proves those invariants. Tables and the disk are maps; one SQL statement or
transaction, one file-system call, one critical section or one channel operation is one atomic step;
theorems about protocols quantify over every interleaving of steps. Code that changes state is a class
whose methods are proved against functions of the old state; the properties are lemmas about those
functions and about runs.

| area | modules |
|---|---|
| session rotation, password resets, archiving | `SessionModel`, `SessionInvariant`, `SessionRuns`, `SessionCalls`, `SessionWalks`, `LoginLogout`, `SessionService`, `SessionOutcomes`, `SessionRaces`, `SessionScenarios` |
| robots.txt | `Text`, `RobotsParse`, `RobotsMatch`, `RobotsDecide`, `RobotsAgents` |
| rate limit of link previews | `EmbedRate` |
| embeds of a message and their budget | `EmbedBudget`, `EmbedLinks`, `EmbedLateWork`, `EmbedScenario` |
| moderation queue | `ModerationModel`, `ModerationInvariant`, `ModerationService` |
| media store and its garbage collector | `MediaModel`, `MediaSafety`, `MediaCleanup` |
| audit log pages and purge | `AuditPages` |
| channel positions and the stress client's copy | `Channels` |
| who may read a channel or join its calls | `ChannelAccess` |
| JSON cutting, GIF renditions, Reddit URLs | `BracketScan`, `GifRendition`, `Reddit` |
| shared | `Wrappers`, `Sizes` |

`dafny verify dfyconfig.toml` checks the whole project.

## What the code does not do

Some properties that the code's comments promise, or that one would expect, are false of the code. The
model follows the code; each item names the lemma that shows it and the one that says when the property
does hold.

- Archiving can overtake a refresh. A refresh that loses its race and looks its row up again finds
  nothing when the row was archived in between; it then returns the storage error, not
  `ErrConnectionNotFound`. `SessionRaces.RowNotFoundExactly` says exactly when, and
  `SessionScenarios.RefreshLosesItsRow` is a run of the services in which it happens. Likewise a walk whose
  next row was archived ends in `ErrConnectionNotFound` although the session is alive:
  `SessionRaces.NotFoundAliveExactly` says exactly when, `SessionScenarios.RefreshLosesItsSuccessor` is a run.
  A refresh that ends within the archiving delay of its row's replacement, or of its lookup of a live row,
  has neither fault (`SessionOutcomes.PromptRefreshIsExact`).
- `RefreshConnection` is documented as serving the tip within a grace window. The code checks no
  window: a replaced row is served exactly when its session is alive and its walk does not break, so a
  token the session check refuses is handed the live one exactly when, besides, it was rotated longer ago
  than the window or has been archived meanwhile (`SessionOutcomes.GraceWindowIsNotChecked`, and
  `SessionScenarios.ServedOutsideTheWindow` as a run).
- A logout can report success and leave its session alive (`SessionScenarios.LogoutLeavesSessionAlive`, a run):
  exactly when the session check accepts the row of its first lookup and the second lookup finds that row
  replaced while the session is alive (`LoginLogout.SessionSurvivesLogout`).
- Keeping the media collector away from the span between an upload's file check and its row insert is
  not enough: it can delete the row before that span and remove the file after it
  (`MediaSafety.QuietUploadsAreNotEnough`). `MediaSafety.Exclusive` is an exclusion that suffices.
- Attempts do not bound inferences: a crash or a database error loses a claim without using an attempt,
  so an image that kills the process is claimed again without limit
  (`ModerationInvariant.ClaimsAreUnbounded`). Every claim is accounted for
  (`ModerationInvariant.ClaimsAreConserved`).
- The limits of ten embeds and 6000 characters can be broken by background work that ends late
  (`EmbedScenario.LateWorkBreaksLimits`, a run). Whatever it finds, it keeps them exactly when the embeds of
  the message it ends on take no more of either limit than the custom embeds it started from, or these
  left it no room (`EmbedLateWork.LateWorkIsSafeExactly`).
- The comment at `backend/internal/services/embeds.go:194-199` says a bucket refills in about six
  minutes at ten a minute. It refills in one minute at any rate, and one minute is exactly the age
  from which eviction is invisible (`EmbedRate.EvictionIsInvisible`, `EmbedRate.ShortTtlShows`).
- The choice of a GIF rendition is said not to depend on map iteration order. It does when a URL is
  listed under two kinds that would rank it differently (`GifRendition.SharedUrlShows`). It does not
  exactly when nothing is animated, or one URL is animated wherever it is listed and preferred, as each
  kind lists it, to every URL that can be listed beside it (`GifRendition.OrderIrrelevantExactly`).
- Channel positions are said to stay 1 to n. Deletion leaves a gap unless the last channel goes
  (`Channels.DeleteLeavesGap`).
- When the purge removes the row a page's cursor names, the next page is empty and last. That is right
  exactly when no row that is left passes the filter after the cursor: always in descending order, in
  ascending order only when nothing left passes the filter (`AuditPages.PurgedCursor`).
- Groups of a robots.txt that match equally well are not merged, as section 2.2.1 of RFC 9309 asks: an
  empty group hides a later one that closes the site (`RobotsDecide.FirstOfTiedHidesRest`). The decision
  is the merged one exactly when the tied groups add no rule that outweighs it
  (`RobotsDecide.TiesMatterExactly`), so always when one group alone matches best
  (`RobotsDecide.SingleBestIsMerged`).
- The comment of the URL extraction lists the colon as trailing punctuation; a trailing colon is never cut
  (`EmbedLinks.ColonStays`).

## Model

| member | source | states |
|---|---|---|
| SessionInvariant.FindByHashExact | backend/internal/storage/user_connections.go:75-87 | A lookup by user and hash returns the only row that has them, and nothing exactly when there is none |
| SessionInvariant.OnlyRepeatedIdsCollide | backend/internal/services/connections.go:59-76 | An insertion collides exactly when its id was drawn before, so retries end at a new id |
| SessionInvariant.ArchiveIsPredecessorClosed | backend/internal/services/maintenance.go:335-350 | A row that stays in the active table keeps its successor there: archiving by age is predecessor-closed |
| SessionInvariant.ArchiveResult | backend/internal/storage/user_connections.go:361-382 | Unlinking for the foreign key never touches a row that stays, so archiving moves old rows and changes no other |
| SessionInvariant.ApplyKeeps | backend/internal/storage/user_connections.go:57-292 | Every statement on the session tables keeps the invariant: unique hashes, ordered times, successors one generation later, one live row a login |
| SessionRuns.RunKeeps | backend/internal/services/connections.go:86-171 | So does every interleaving of logins, refreshes, revocations, resets, archiving and purges |
| SessionRuns.ChainsAreSimple | backend/internal/services/connections.go:142-158 | In every reachable state `replaced_by` has no cycle, is injective, stays inside the active table, and `replaced_at` never decreases along it |
| SessionRuns.PathClimbs | backend/internal/services/connections.go:142-158 | A walk of any length along `replaced_by` stays in one login and climbs one generation a step |
| SessionRuns.TipServesLiveSession | backend/internal/services/connections.go:142-171 | On a quiet table the walk ends on the newest row of the login, which is live exactly when the login has a live connection |
| SessionRuns.OneLiveConnectionPerSession | backend/internal/services/connections.go:78-85 | Concurrent refreshes never fork a login: it has at most one live connection |
| SessionRuns.RotateConservesLiveConnections | backend/internal/storage/user_connections.go:171-215 | A rotation leaves every user's number of live connections unchanged |
| SessionRuns.DeadSessionsStayDead | backend/internal/storage/user_connections.go:171-215 | A login without a live connection never gets one again, whatever follows |
| SessionRuns.ResetEndsEverySession | backend/internal/storage/password_resets.go:49-97 | After a reset commits, no row of a login before it is live and no reset token issued before it is usable, in every later state |
| SessionRuns.ConsumedAtMostOnce | backend/internal/storage/password_resets.go:49-97 | Over a whole run a reset token is consumed at most once |
| SessionRuns.ArchiveMovesLookup | backend/internal/storage/user_connections.go:361-382 | After archiving a lookup finds the same row, in the history exactly when it was old enough to move |
| SessionRuns.ArchiveChangesCheck | backend/internal/storage/user_connections.go:135-163 | Archiving changes the verdict on a token exactly when its row was rotated, is old enough to move, and is still within the grace period |
| SessionRuns.ArchiveIsInvisible | backend/internal/services/maintenance.go:335-350 | With the delay the maintenance uses, archiving changes no verdict |
| SessionService.SessionStore.RotateUserConnection | backend/internal/storage/user_connections.go:171-215 | The compare-and-swap: its effect is the rotation step; on success the new row is live and of the same login, on failure the id was used or the old hash names no live row, and nothing changed |
| SessionService.SessionStore.RevokeUserConnection | backend/internal/storage/user_connections.go:220-234 | Succeeds exactly on a live row of this user; then that row is replaced now, without a successor, and every other row is as it was |
| SessionService.SessionStore.HandleConnectionReuse | backend/internal/storage/user_connections.go:260-292 | Replaces now exactly the live rows of the user, counts them, marks the account when it exists, and changes nothing else |
| SessionService.SessionStore.CreatePasswordResetToken | backend/internal/storage/password_resets.go:13-45 | Earlier unused tokens of the user are spent and the new one inserted |
| SessionService.SessionStore.ConsumePasswordResetToken | backend/internal/storage/password_resets.go:49-97 | Exactly an unused, unexpired token changes the password, spends all the user's tokens and revokes all live rows |
| SessionService.SessionStore.MoveUserConnectionsToHistory | backend/internal/storage/user_connections.go:361-382 | Rows replaced before the cutoff move to the history, and are counted |
| SessionService.SessionStore.ArchiveUserConnections | backend/internal/services/maintenance.go:330-350 | Rows replaced twelve hours ago go to the history and those of the history replaced twenty-five hours ago go for good, with other requests between the two statements |
| SessionService.SessionStore.CreateSessionConnection | backend/internal/services/connections.go:52-76 | With other requests between its attempts: a login returns the token of a new live row of a new session and changes no other row; it fails only when every drawn id was used |
| LoginLogout.LoginsEnd | backend/internal/services/connections.go:52-76 | The same of the login loop as a function: the tables it leaves are those of the other requests up to its last attempt, in order, and its own insertion |
| LoginLogout.QuietLoginAddsOne | backend/internal/services/connections.go:52-76 | Left alone, a login adds exactly one row, the first of a new session, with the first id drawn that is new, a second later for each id drawn before, and with the hash of the token it returns |
| SessionService.SessionStore.TipConnection | backend/internal/services/connections.go:142-171 | The walk, one lookup a statement with other requests in between: it terminates, the tables it leaves are those requests' steps in order and nothing else, and a revoked tip is told from an archived successor |
| SessionService.SessionStore.RefreshConnection | backend/internal/services/connections.go:86-137 | Whatever runs between any two statements: the tables it leaves are the other requests' steps, batch after batch in order, and at most one rotation of the presented token; a token it returns is the live one of the same login, which was alive at every step; every end says what it should of the tables |
| SessionCalls.RefreshRuns | backend/internal/services/connections.go:86-137 | The tables of a refresh are those of the other requests' steps up to its last statement, each batch once and in order, then its own rotation if it won one |
| SessionCalls.RefreshEnds | backend/internal/services/connections.go:86-171 | What each of its ends means: rotated, tip reached and live exactly when the session is, successor gone, row gone, ids used up |
| SessionCalls.WalkEnds | backend/internal/services/connections.go:142-171 | The walk ends on the newest row of the session, live exactly when the session is, or finds the successor and the presented row gone |
| SessionCalls.ServedWasAlive | backend/internal/services/connections.go:86-137 | The session of a refresh that is served was alive at every step from its first lookup to its end |
| SessionService.SessionStore.Logout | backend/internal/services/connections.go:193-215 | Up to three statements with other requests in between: it ends as its function says, does at most one step itself, and each end says what it should of the tables |
| LoginLogout.LogoutEnds | backend/internal/services/connections.go:193-215 | After a revocation the session is dead, after a violation no row of the user is live, an unrecognised row's session is dead, the two lookup errors mean a row gone or no longer live |
| LoginLogout.SessionSurvivesLogout | backend/internal/services/connections.go:193-205 | A logout reports success and leaves its session alive exactly when the session check accepts the row of its first lookup, and at the second lookup that row is there, replaced, and the session alive |
| LoginLogout.QuietLogout | backend/internal/services/connections.go:193-215 | Left alone, it revokes a live row, reacts to reuse of a replaced one, and does nothing else, as the session check decides |
| LoginLogout.QuietLogoutRevokesOne | backend/internal/services/connections.go:193-215 | Left alone, a logout with the token of a live row replaces that row and leaves every other as it was: the user has exactly one live row less |
| LoginLogout.CheckMeaning | backend/internal/storage/user_connections.go:135-163 | The session check: a live token is accepted, as is one rotated at most a minute ago; one rotated longer ago or archived is a reuse; a revoked one and one that nobody holds are unknown |
| SessionService.SessionStore.DropConnection | backend/internal/services/connections.go:238-276 | Revokes one or all live rows of the user, with the count or the error |
| SessionOutcomes.ResetRefusesRefresh | backend/internal/services/connections.go:86-158 | However the steps of a refresh and a reset interleave: when the reset is consumable as its turn comes, at any point before the last statement, the refresh of an earlier session of that user is not served |
| SessionOutcomes.ResetBeforeSwap | backend/internal/services/connections.go:103-112 | So a reset that commits between the lookup and the compare-and-swap is in time |
| SessionOutcomes.GraceWindowIsNotChecked | backend/internal/services/connections.go:78-100 | A replaced row is served exactly when its session is alive and its walk does not break; it is served though the session check refuses it exactly when moreover it was rotated longer ago than the grace period or has left the table |
| SessionOutcomes.PromptRefreshIsExact | backend/internal/services/connections.go:86-137 | If the call ends within the archiving delay of the row's replacement, or of the first lookup of a live row, it is refused as not found exactly when the session is dead, and its second lookup finds the row |
| SessionOutcomes.ServedIsTheTip | backend/internal/services/connections.go:142-171 | What a refresh serves is the tip of the chain of the row it read |
| SessionOutcomes.QuietRefreshConserves | backend/internal/services/connections.go:86-137 | Left alone, a refresh leaves every user's number of live connections unchanged |
| SessionOutcomes.QuietRefreshAnswers | backend/internal/services/connections.go:86-137 | Left alone, a refresh of a live row replaces it by one new row of its user and login, with the first id drawn that is new, a second later for each id drawn before, returns that row's token, and changes nothing else |
| SessionRaces.RowNotFoundExactly | backend/internal/services/connections.go:114-124 | The bare lookup error is returned exactly when the row was live at first, lost a compare-and-swap, all before it only to repeated ids, and was gone at the lookup after it |
| SessionRaces.RowNotFoundPlainly | backend/internal/services/connections.go:114-124 | With an id never drawn before: live when first read, replaced or gone at the compare-and-swap, gone at the second lookup |
| SessionRaces.RaceLosesRow | backend/internal/services/connections.go:114-124 | A rotation, twelve hours and an archiving before the compare-and-swap of any live row give that error while the session is alive |
| SessionWalks.WalkVanishesExactly | backend/internal/services/connections.go:142-158 | For any interleaving, a walk finds a successor gone exactly when a path of successors, each there and linked to the next when its lookup comes, ends in one that has left the table; and the session is alive then exactly when it is in the tables of that lookup |
| SessionRaces.NotFoundAliveExactly | backend/internal/services/connections.go:86-158 | A refresh is answered ErrConnectionNotFound for a live session exactly when its walk breaks so while the session is alive, from the presented row or from that row as the lookup after a lost race found it |
| SessionRaces.ArchivingTakesSuccessor | backend/internal/services/connections.go:142-152 | For instance: an archiving that takes the presented row's successor, with no time passing |
| SessionScenarios.RefreshLosesItsRow | backend/internal/services/connections.go:114-124 | A run of the services that ends in the storage error with the session alive |
| SessionScenarios.RefreshLosesItsSuccessor | backend/internal/services/connections.go:142-152 | A run that ends in ErrConnectionNotFound with the session alive, by an archiving between two statements |
| SessionScenarios.ServedOutsideTheWindow | backend/internal/services/connections.go:97-100 | A run in which a token the session check calls reused is handed the live one |
| SessionScenarios.LogoutLeavesSessionAlive | backend/internal/services/connections.go:193-205 | A run in which a logout with a token rotated within the grace period reports success and its session lives on |
| RobotsParse.ParseRobots | backend/internal/services/robots.go:162-213 | The loop with its current group computes the line-by-line fold |
| RobotsParse.ParseIsWellFormed | backend/internal/services/robots.go:162-213 | Whatever the text: agents are non-empty, values are trimmed and free of comments and newlines, and a group that another follows has seen a directive |
| RobotsParse.ParseUndoesRender | backend/internal/services/robots.go:162-213 | Parsing a printed list of groups gives that list back exactly when the list is well-formed |
| RobotsParse.ParsedListsAreWellFormed | backend/internal/services/robots.go:162-213 | The well-formed lists are exactly those that some text parses to |
| RobotsParse.SilentLinesDoNotMatter | backend/internal/services/robots.go:166-174 | Blank lines, comment lines and lines without a colon may be left out anywhere |
| RobotsParse.LineMeaning | backend/internal/services/robots.go:166-211 | A line says what its key and value say, whatever the blanks around them, the case of the key, a comment after the value and a carriage return at the end |
| RobotsMatch.BuildRegex | backend/internal/services/robots.go:269-283 | The loop builds the anchored, escaped expression of the rule |
| RobotsMatch.RegexParses | backend/internal/services/robots.go:269-283 | The expression parses, for every rule, to the nodes the rule stands for: escaping loses nothing |
| RobotsMatch.RuleMatchMeaning | backend/internal/services/robots.go:261-286 | A rule matches exactly when its stars can be replaced by newline-free texts that give a prefix of the target, all of it when the rule ends in $; the empty rule never |
| RobotsMatch.RulesByShape | backend/internal/services/robots.go:261-286 | The common shapes in plain terms: a text matches as a prefix, with $ as the whole target, and one star stands for any text on one line |
| RobotsMatch.FastPathAgrees | backend/internal/services/robots.go:265-267 | On rules without * and $ the general path gives the answer of the prefix shortcut |
| RobotsMatch.MatchRule | backend/internal/services/robots.go:261-286 | The method decides that meaning |
| RobotsDecide.ChooseIsFirstBest | backend/internal/services/robots.go:220-236 | The group chosen is the first that holds the longest applying token, and none exactly when no token applies |
| RobotsDecide.ChooseGroup | backend/internal/services/robots.go:220-236 | The nested scan finds the first group with the longest applying token (`RobotsAgents` says which tokens apply) |
| RobotsDecide.LongestMatch | backend/internal/services/robots.go:241-251 | The loop finds the length of the longest matching rule, or -1 |
| RobotsDecide.RobotsAllowed | backend/internal/services/robots.go:220-256 | The method computes the decision |
| RobotsDecide.LongestRuleWins | backend/internal/services/robots.go:241-256 | Section 2.2.2 of RFC 9309 in one group: closed exactly when some matching Disallow rule is longer than every matching Allow rule |
| RobotsDecide.DecisionMeaning | backend/internal/services/robots.go:220-256 | The same for a whole file |
| RobotsDecide.Monotone | backend/internal/services/robots.go:220-256 | More Allow rules and fewer Disallow rules never close a path; other groups' rules do not matter |
| RobotsDecide.OrderIsIrrelevant | backend/internal/services/robots.go:220-256 | Order and repetition of agents and rules in a group do not matter |
| RobotsDecide.TiesAreNotMerged | backend/internal/services/robots.go:215-236 | A later group that matches no better adds none of its rules |
| RobotsDecide.TiesMatterExactly | backend/internal/services/robots.go:215-256 | The decision differs from that of the merged group of section 2.2.1 of RFC 9309 exactly when the groups tied with the chosen one add a rule that outweighs it |
| RobotsDecide.SingleBestIsMerged | backend/internal/services/robots.go:215-256 | With one group that holds the longest applying token the decision is the merged one |
| RobotsDecide.FirstOfTiedHidesRest | backend/internal/services/robots.go:215-236 | For any token and any agent it applies to, a parsed file whose root is open and, merged, would be closed |
| RobotsAgents.AppliesMeaning | backend/internal/services/robots.go:221-231 | An agent line applies exactly when its name, in any ASCII case and with blanks around it, is * or occurs in the lower-cased user agent, and is not blank |
| RobotsAgents.AppliesToPieces | backend/internal/services/robots.go:221-231 | An agent line that names any piece of the user agent applies, whatever the case of either |
| RobotsAgents.StarDecides | backend/internal/services/robots.go:220-256 | A file whose only group names * is decided by that group's rules, for every user agent |
| RobotsAgents.ClosedSite | backend/internal/services/robots.go:220-256 | A file that disallows / to * opens no path that begins with / to anybody |
| RobotsAgents.NamedBeatsStar | backend/internal/services/robots.go:220-236 | A group that names a piece of the user agent, of two characters or more, is chosen over one that names *, in either order |
| RobotsAgents.ForeignIsNeverChosen | backend/internal/services/robots.go:220-236 | A group none of whose names is * or occurs in the user agent is never chosen |
| EmbedRate.TokenBucket.Take | backend/internal/services/embeds.go:176-187 | Refill up to the maximum, then take one token if there is one |
| EmbedRate.WindowBound | backend/internal/services/embeds.go:176-187 | Between any two instants a bucket grants at most max + max * seconds / 60 calls |
| EmbedRate.GrantsExactlyWhatFits | backend/internal/services/embeds.go:168-187 | A bucket that starts full grants a call exactly when every window ending with it stays within that bound |
| EmbedRate.EmbedRateLimiter.EmbedRateAllow | backend/internal/services/embeds.go:232-250 | The global bucket is asked first and pays even when the user's bucket refuses |
| EmbedRate.EmbedRateLimiter.CleanupStale | backend/internal/services/embeds.go:205-225 | Exactly the buckets unused for more than an hour are removed, and counted; the others are as they were |
| EmbedRate.EvictionIsInvisible | backend/internal/services/embeds.go:194-225 | With a limit of a minute or more, every call of every run gets the answer it would get without evictions |
| EmbedRate.SweepIsInvisible | backend/internal/services/embeds.go:194-250 | With the limit the sweep uses, every call of every run gets the answer it would get without evictions |
| EmbedRate.RatesHold | backend/internal/services/embeds.go:194-250 | With that limit a user is let through at most rate + rate * seconds / 60 times in any window, and all users together at most the same of the global rate |
| EmbedRate.ServeAll | backend/internal/services/embeds.go:205-250 | A limiter that is called and swept in any order gives exactly the answers of one that is never swept |
| EmbedRate.ShortTtlShows | backend/internal/services/embeds.go:201-209 | With any shorter limit some run shows the difference |
| EmbedRate.UserBound | backend/internal/services/embeds.go:232-250 | Each user's calls let through in a window obey the user bound, evictions included |
| EmbedRate.TotalBound | backend/internal/services/embeds.go:232-250 | All users' calls let through in a window obey the global bound |
| EmbedRate.AllowsExactlyWhatFits | backend/internal/services/embeds.go:232-250 | A call is let through exactly when it fits the global rate and the user's |
| EmbedBudget.ValidateCustomEmbeds | backend/internal/services/embeds_custom.go:80-170 | Accepts exactly the lists of at most ten valid embeds and 6000 counted characters; the error names the first invalid embed |
| EmbedBudget.ValidateCustomEmbed | backend/internal/services/embeds_custom.go:102-170 | Accepts exactly the embeds with 25 fields or fewer and no text beyond its own limit |
| EmbedBudget.CountedInput | backend/internal/services/embeds_custom.go:479-490 | Title, description, author, footer, and name and value of each field count, each with its own length; the site name does not |
| EmbedBudget.CountedStored | backend/internal/services/embeds_custom.go:494-515 | The same texts count of a stored embed |
| EmbedBudget.BuildCustomEmbed | backend/internal/services/embeds_custom.go:334-403 | For any input, valid or not: each text is the beginning of its own text, cut at its own limit, and missing when empty; fields keep their number, order and shown marks |
| EmbedBudget.BuildKeepsText | backend/internal/services/embeds_custom.go:334-403 | Building keeps the counted text length exactly when no counted text exceeds its own limit, and never increases it |
| EmbedBudget.ValidIsStoredAsSent | backend/internal/services/embeds_custom.go:328-403 | Of a valid input building cuts nothing |
| EmbedLinks.CreateCustomEmbeds | backend/internal/services/embeds_custom.go:290-325 | What is stored respects the limits, and is what was sent: every title, description, site name, author name and footer is the very text, or missing when empty, and every field has its place, name, value and mark |
| EmbedLinks.StrippedIsLongest | backend/internal/services/embeds.go:287-301 | Stripping gives the longest beginning of the URL that ends neither in punctuation nor in an unbalanced parenthesis |
| EmbedLinks.ColonStays | backend/internal/services/embeds.go:254-301 | A trailing colon is never cut |
| EmbedLinks.TidyMeaning | backend/internal/services/embeds.go:287-301 | An ending is cut exactly when it is one of . , ; ! ? or a closing parenthesis of which there are more than opening ones |
| EmbedLinks.StripTrailingPunctuation | backend/internal/services/embeds.go:289-301 | The two repeated cuts compute it |
| EmbedLinks.FirstsAreDistinct | backend/internal/services/embeds.go:260-285 | Extraction lists each cleaned URL once and misses none |
| EmbedLinks.CleanedMeaning | backend/internal/services/embeds.go:260-285 | A match keeps its scheme, one without a scheme is read as https, and one that is all punctuation is no URL |
| EmbedLinks.ExtractEmbedURLs | backend/internal/services/embeds.go:260-285 | The loop returns the first of them, all or as many as the maximum, two when none is set |
| EmbedLinks.CrawlEmbeds | backend/internal/services/messages.go:584-641 | The crawl keeps, in order, the embeds whose text still fits |
| EmbedLinks.CrawlFits | backend/internal/services/messages.go:584-641 | A crawl never exceeds the number and the text that were left |
| EmbedLinks.LeftOutDidNotFit | backend/internal/services/messages.go:584-641 | An embed that was obtained and left out would not have fitted beside those kept |
| EmbedLinks.KeptIsFetched | backend/internal/services/messages.go:584-641 | Every embed kept was obtained from one of the URLs |
| EmbedLinks.EmbedBudgetOf | backend/internal/services/messages.go:538-544 | The budget is ten minus the embeds and 6000 minus their text |
| EmbedLinks.Message.ProcessMessageEmbeds | backend/internal/services/messages.go:652-669 | It attaches what a crawl on the budget it started from finds; on the new message it started from the message stays within ten embeds and 6000 characters |
| EmbedLinks.Message.ProcessEditedMessageEmbeds | backend/internal/services/messages.go:680-724 | The same after an edit, whatever the links were; added and removed are the two set differences of the link ids |
| EmbedLateWork.CurrentWorkRespectsLimits | backend/internal/services/messages.go:643-724 | In any history, work that ends while the room it counts on is still there leaves the message within its limits; on the message it started from it always is |
| EmbedLateWork.BudgetIsExact | backend/internal/services/messages.go:584-641 | The lists that fit the budget are exactly those some crawl on it returns |
| EmbedLateWork.LateWorkIsSafeExactly | backend/internal/services/messages.go:643-724 | Work that ends late keeps the limits, whatever it finds, exactly when custom embeds and links take no more of either than the custom embeds it started from, or these left no room |
| EmbedLateWork.LateWorkWithoutLinks | backend/internal/services/messages.go:643-724 | For the work of an edit, or a creation without links yet: the custom embeds must not have grown in number or text |
| EmbedScenario.LateWorkBreaksLimits | backend/internal/services/messages.go:652-669 | A creation whose work ends after an edit to ten custom embeds leaves eleven |
| ModerationInvariant.NothingIsProcessedTwice | backend/internal/moderation/queue.go:17-44 | In every reachable state each in-flight id has exactly one owner, the queue holds no duplicate and fits its capacity, and the worker's id is not queued |
| ModerationInvariant.AttemptsAreBounded | backend/internal/moderation/worker.go:113-126 | Attempts never exceed three, and the status is failed exactly when they are three |
| ModerationInvariant.ClaimsAreConserved | backend/internal/storage/attachments.go:223-279 | Every claim is a recorded failure, a stored verdict, a loss, or in progress |
| ModerationInvariant.ClaimsAreUnbounded | backend/internal/storage/attachments.go:217-242 | For every n some run claims an attachment n times and leaves its attempts at zero |
| ModerationInvariant.TerminalIsAbsorbing | backend/internal/storage/attachments.go:223-279 | Whatever follows, a verdict or a failure stays until the row is deleted |
| ModerationInvariant.VerdictsAreRuled | backend/internal/moderation/worker.go:55-98 | In every run, an image whose status is a verdict was held by the worker when that very ruling was stored; another file is only ever pending or, once the worker has settled it, clean |
| ModerationInvariant.AttemptsAreStoredFailures | backend/internal/moderation/worker.go:113-126 | In every run, the attempts of a row are the failures stored while the worker held it |
| ModerationService.Service.Enqueue | backend/internal/moderation/queue.go:17-36 | With other goroutines acting between its steps, it marks, sends and, when the queue is full, forgets; an id in flight changes nothing |
| ModerationService.Service.ProcessNext | backend/internal/moderation/worker.go:41-109 | It is the five worker steps in order, whatever the others do in between, and ends with its id out of flight |
| ModerationService.QuietJob | backend/internal/moderation/worker.go:41-109 | Left alone, the job of an image that may be claimed ends with the ruling as its status, or one more attempt, its id out of the queue and out of flight, and nothing else changed |
| ModerationService.Service.SettleJob | backend/internal/moderation/worker.go:55-76 | Another file becomes clean when the statement succeeds; an image is claimed exactly when the classifier is ready and the row pending, or processing for more than five minutes; every other row is as it was |
| ModerationService.Service.ConcludeJob | backend/internal/moderation/worker.go:78-102 | The row gets the very status that was ruled, its attempts unchanged, or one more attempt and failed at the third, or keeps its status when nothing is stored; every other row is as it was |
| ModerationService.Service.ClaimAttachmentForModeration | backend/internal/storage/attachments.go:223-242 | Succeeds exactly on a pending row or a processing one older than five minutes |
| ModerationService.Service.HandleInferenceFailure | backend/internal/moderation/worker.go:113-126 | One more attempt, and failed at the third |
| ModerationService.Service.Reconcile | backend/internal/moderation/worker.go:217-229 | A pass over a page leaves all its ids in flight unless the queue is full; with a short page no claimable row is left out |
| MediaSafety.BlobsAreWhole | backend/internal/services/media.go:84-116 | With no assumption, at every step and crash point: a blob on disk is never partial and no reference loses its row |
| MediaSafety.RowsHaveFiles | backend/internal/services/media.go:57-82 | Under mutual exclusion of uploads and collector per hash, every row has its complete file at every step and crash point |
| MediaSafety.OnlyTheseLoseFiles | backend/internal/services/maintenance.go:133-262 | A step loses a file exactly when it removes a blob whose row is there, or inserts a row whose blob is not |
| MediaSafety.QuietUploadsAreNotEnough | backend/internal/services/maintenance.go:154-169 | A run in which the collector never moves between an upload's check and its insert, and a row ends without its file |
| MediaSafety.QuietUpload | backend/internal/services/media.go:57-116 | Left alone, an upload stores the whole content under its name, gives it a row unless it has one, and can be referred to; no temporary file is left |
| MediaSafety.QuietDuplicate | backend/internal/services/media.go:57-82 | One whose blob is there writes no file |
| MediaSafety.QuietCollection | backend/internal/services/maintenance.go:133-176 | Left alone, a collection takes the row and the file of an old blob exactly when nothing refers to it |
| MediaCleanup.MediaStore.DeleteOrphanAttachments | backend/internal/storage/attachments.go:176-189 | Removes the attachments without a message that are older than the cutoff, their thumbnails with them, and counts the attachments |
| MediaCleanup.MediaStore.CleanupStaleMedia | backend/internal/services/maintenance.go:133-176 | Removes old unreferenced rows with their files, part of them when interrupted, and counts both |
| MediaCleanup.MediaStore.CleanupOrphanMediaFiles | backend/internal/services/maintenance.go:222-262 | Removes old files without a row, part of them when interrupted, and counts them |
| MediaCleanup.MediaStore.CleanupMedia | backend/internal/services/maintenance.go:99-125 | A finished run gives the cleaned store; an interrupted one can be resumed to the same store; it reports zero exactly when it changed nothing |
| MediaCleanup.CleanupReachesFixpoint | backend/internal/services/maintenance.go:86-125 | After one run nothing is left to remove; a second run changes nothing; the unchanged stores are exactly the tidy ones |
| MediaCleanup.NothingInUseIsRemoved | backend/internal/services/maintenance.go:127-176 | A row stays exactly when something still refers to it or it is young, and its file with it; foreign keys stay satisfied, thumbnails keep their attachment |
| MediaCleanup.CleanedExactly | backend/internal/services/maintenance.go:86-262 | Exactly what a run leaves: the references that are no old loose attachment and no thumbnail of one, the rows referred to or young, the blobs of the rows left and the other files that are young |
| AuditPages.AuditLog.ListAuditLogs | backend/internal/storage/audit.go:98-175 | One row more than the limit after the cursor, nothing for a stale cursor; the cursor is looked up before other requests change the table that is listed |
| AuditPages.AuditLog.ListAuditLogsOrdered | backend/internal/services/audit.go:127-169 | The page cut, has_more, and the error for an unknown order |
| AuditPages.PageIsRight | backend/internal/services/audit.go:127-169 | A page is ordered, holds only wanted rows, skips none before its end, and has_more holds exactly when wanted rows remain |
| AuditPages.PageAnswersRequest | backend/internal/storage/audit.go:98-175 | In the terms of the request: the rows of a page have the action, actor and entity asked for, lie within the dates and beyond the cursor, in order; one of that kind that is missing comes after the hundred on the page |
| AuditPages.CrawlSeesEveryRowOnce | backend/internal/storage/audit.go:98-175 | Following cursors over a table that changes between any two statements returns rows in order, none twice, and every matching row present throughout, if each cursor row is there when looked up |
| AuditPages.GrowingTableIsListed | backend/internal/storage/audit.go:98-175 | While no row is purged no cursor is stale, and a crawl returns every matching row there was when it began, once and in order |
| AuditPages.FixedTableIsListed | backend/internal/services/audit.go:127-169 | On a fixed table the pages are the sorted filtered table, and a crawl cannot go on for ever |
| AuditPages.PurgedCursor | backend/internal/storage/audit.go:108-117 | When the purge removed the cursor's row the next page is empty and last, which is right exactly when no row left passes the filter after the cursor: in ascending order exactly when none passes the filter |
| AuditPages.AuditLog.PurgeAuditLogsBatch | backend/internal/storage/audit.go:220-229 | Removes and counts rows older than the cutoff, at most the limit, none younger than one that stays, and all of them when it removes fewer |
| AuditPages.AuditLog.PurgeAuditLogs | backend/internal/services/maintenance.go:283-329 | Never removes a row that is young enough, removes all others when it finishes and a thousand a batch until it is interrupted, and always leaves the trigger in place |
| AuditPages.NotOlderIsRight | backend/internal/services/maintenance.go:283-329 | What a finished purge leaves: exactly the young rows |
| Channels.ChannelTable.CreateChannel | backend/internal/storage/channels.go:60-97 | The new channel takes the largest position plus one |
| Channels.ChannelTable.ChangePosition | backend/internal/storage/channels.go:226-295 | The storage move: its three errors, and the shift of the range between the two positions |
| Channels.ChannelTable.ChangeChannelPosition | backend/internal/services/channels.go:173-197 | Gives each error its cause; a move gives the channel its position, shifts by one exactly the listed channels between the two, leaves every other as it was and keeps the invariant |
| Channels.ChannelTable.DeleteChannel | backend/internal/storage/channels.go:298-312 | Removes one channel and moves no other |
| Channels.PositionsStayDistinct | backend/internal/storage/channels.go:60-312 | Any sequence of creations, moves and deletions keeps listed positions distinct and at least 1 |
| Channels.MoveKeepsOrder | backend/internal/storage/channels.go:263-278 | A move never changes the order of the other channels |
| Channels.MoveIsUndone | backend/internal/storage/channels.go:226-295 | Moving back restores every position; it is accepted exactly when the old position is within the number of channels |
| Channels.MoveIsRemoveThenInsert | backend/internal/storage/channels.go:219-295 | Without gaps a move is list removal and insertion, and positions stay 1 to n |
| Channels.CreateAppends | backend/internal/storage/channels.go:52-97 | Without gaps a new channel is appended to the list |
| Channels.DeleteLeavesGap | backend/internal/storage/channels.go:219-312 | After a deletion positions are 1 to n exactly when the last channel was deleted |
| Channels.SeedClient.Follow | backend/cmd/stress/seed.go:774-788 | The client's two loops apply the server's shift to its local map |
| Channels.SeedClient.Reposition | backend/cmd/stress/seed.go:757-788 | The position the seeder picks is accepted and its local copy equals the server's positions afterwards |
| ChannelAccess.UserHasChannelPermission | backend/internal/services/messages.go:1284-1324 | The answer for one user is the rule, with and without free access to open channels |
| ChannelAccess.CanReadChannel | backend/internal/services/channels.go:289-313 | A direct conversation is open to its two members unless either blocked the other; any other channel to the owner, to everyone when no role has permissions, and to holders of a role that may read |
| ChannelAccess.CanConnectVoice | backend/internal/services/voice.go:22-49 | The same for joining calls, with the right to connect, in voice channels only |
| ChannelAccess.DirectConversationReaders | backend/internal/storage/direct_messages.go:226-246 | Exactly the requested members of the conversation, none when either blocked the other |
| ChannelAccess.ChannelReaders | backend/internal/services/channels.go:321-381 | The batch answer is right about everybody it names and everybody asked about |
| ChannelAccess.VoiceConnectors | backend/internal/services/voice.go:57-116 | The same for calls, with its errors |
| ChannelAccess.BatchAndSingleAgree | backend/internal/services/channels.go:315-381 | For a requested user the batch and the single answer agree, for reading and for calls, errors included |
| BracketScan.BalancedAt | backend/internal/services/embeds_gif.go:930-963 | The loop over depth, string and escape state computes the first closing |
| BracketScan.EndsWhereDepthReturns | backend/internal/services/embeds_gif.go:930-963 | From an opening bracket the result ends at the least position where the depth outside strings returns to zero, and is empty exactly when there is none |
| BracketScan.NothingToCut | backend/internal/services/embeds_gif.go:930-963 | At a closing bracket or past the end the result is empty |
| BracketScan.CutsRenderedValue | backend/internal/services/embeds_gif.go:930-963 | A rendered array or object, with any text before and after it, is cut out exactly |
| GifRendition.RenditionsFromImages | backend/internal/services/embeds_gif.go:1055-1102 | Each URL is listed once, under the first kind that has it |
| GifRendition.GatherLists | backend/internal/services/embeds_gif.go:1055-1102 | Each URL is listed as its first holder in the iteration order has it, those of one kind in the order of its candidates |
| GifRendition.PickGifRendition | backend/internal/services/embeds_gif.go:375-416 | The passes over the tiers |
| GifRendition.PickIsPreferred | backend/internal/services/embeds_gif.go:358-427 | The pick is the largest animated rendition of the first tier rule that any fits; nothing is picked exactly when nothing is animated |
| GifRendition.PickHasLeastRank | backend/internal/services/embeds_gif.go:358-427 | The passes amount to one order: within the size before beyond it, then medium, small, extra small, high, other, then the larger area, then the first kind |
| GifRendition.OrderIrrelevantExactly | backend/internal/services/embeds_gif.go:365-427 | The URL downloaded is the same in all iteration orders exactly when nothing is animated, or one URL is animated wherever it is listed and preferred to every URL that can be listed beside it |
| GifRendition.PickIgnoresOrder | backend/internal/services/embeds_gif.go:365-427 | So when no URL that some kind lists as animated is listed by a second kind |
| GifRendition.SharedUrlShows | backend/internal/services/embeds_gif.go:1055-1102 | Two orders of a map with a shared URL that download different URLs |
| Reddit.RedditPostTarget | backend/internal/services/embeds_reddit_urls.go:30-78 | The cases on host and path fill the target |
| Reddit.LinksAreRead | backend/internal/services/embeds_reddit_urls.go:30-78 | Every short, gallery, plain, community, profile, slug, comment or share link, at every host of its kind, is recognised as exactly the post, comment, community and share mark it names, at the canonical host |
| Reddit.OnlyLinksAreRead | backend/internal/services/embeds_reddit_urls.go:30-78 | Nothing else is recognised: no other scheme, port, host, shape of path or name |
| Reddit.KnownLinksAreRead | backend/internal/services/embeds_reddit_urls.go:53-77 | The URL written for any link of valid names, at any host of its kind and with any slashes around its path, is recognised as what it names |
| Reddit.CanonicalIsIdempotent | backend/internal/services/embeds_reddit_urls.go:30-78 | The canonical URL of an accepted URL is accepted again with the same URL, id, comment, community and share mark |
| Reddit.EmbedDocumentIsAllowed | backend/internal/services/embeds_reddit.go:42-53 | The embed-document URL passes the check its own request is subject to |
| Reddit.RequestsStayOnPost | backend/internal/services/embeds_reddit.go:42-53 | A request for the document and its redirects stay at that host, at that post and at that comment |
| Reddit.ResolvedShareIsAPost | backend/internal/services/embeds_reddit.go:35-41 | A resolved share link is again a post and not a share link, so ignoring the second check is safe |

## Left out

- ModerationService.Service.Reconcile: does not interleave other goroutines between its enqueues; the interleaving theorems of `ModerationInvariant` cover the steps it is made of.
- AuditPages.AuditLog.PurgeAuditLogsBatch: breaks ties of `created_at` by id, where the database may break them in any way.
- AuditPages.AuditLog.PurgeAuditLogs: takes the recreation of the trigger to succeed; the code only logs its failure. No rows are inserted between its batches.
- EmbedRate.EmbedRateLimiter.EmbedRateAllow: is one atomic step; a bucket evicted between being loaded and being asked is not modelled.
- EmbedLinks.Message.ProcessEditedMessageEmbeds: returns the removed links as a set of ids; text lengths of a link row refetched later by another message are not bounded.
- Isolation: each transaction or statement is atomic and the database clock never goes back; `now()` is read at commit order.
- Identifiers: a UUID is never drawn twice for two rows, except that session ids may collide with any id used before, which the retry loops handle.
- Cryptography: hashes are injective, a session token is a function of user, connection, second and secret.
- Users are not deleted, so no cascade from the users table is modelled.
- Floating point: token buckets use reals; instants are read once for each call.
- Text: characters are code points; invalid UTF-8 is not modelled, and lower case covers the characters whose lower case is an ASCII letter.
- Moderation: one process and one worker, as the service enforces; an attachment keeps its MIME type; an update that reports an error is taken not to have happened.
- Moderation broadcasts, the deletion of a blocked message and the policy's thresholds: deletion of rows is a step that may happen at any time.
- MediaCleanup.MediaStore.CleanupOrphanMediaFiles: asks for the rows of all candidate files in one statement; the code asks in chunks of 500.
- Media: removal of empty directories and files outside the directory their name prescribes.
- robots.txt: fetching, the cache and its lifetimes, and the path of the target; parsing and the decision are modelled.
- GIF, oEmbed and HTML: downloads and decoding, the rendition lists of the other GIF provider, the regular expressions that locate a JSON object, JSON parsing, and the state machine of the Reddit document parser.
- Link previews: the URL pattern itself; its matches are inputs, and what a URL leads to is a function.
- Validation of colours, URLs and media of custom embeds: one Boolean input, since they do not touch the counted text.
- Channel names, types, topics and permissions beyond reading and calls; the limit of 500 listed channels.
- HTTP handlers, routing, WebSocket hub, voice server, configuration parsing and the stress tool beyond its local positions: they would add only easy members.
