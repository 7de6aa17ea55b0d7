# Gateway verification

A Dafny model of the algorithms of a Claude gateway in front of Amazon Bedrock, with machine-checked properties. One
module per algorithm; `dafny verify dfyconfig.toml` checks the whole project.

- **Cache-version coherence** (`KeyStore`, `CacheCoherence`). Any number of writers, replicas and admin handlers
  interleave one database statement or lock acquisition at a time. A writer commits a row, and most writers then bump
  a counter in a second statement; those of user rows never do. A replica's poll loop reads the counter, records it,
  reads keys and e-mails and swaps its map. The invariant holds in every run. A replica whose last reload began after
  its recorded version was read misses no write that any bump up to that version announced. At the database's version it
  serves the current view when nothing was committed after the last bump, and when only user rows were, exactly when no
  key's owner has changed. Five runs show what goes
  wrong otherwise: keys loaded before the version at startup, a version recorded before a reload that fails, admin
  handlers that reload or insert into the map directly, and a user deactivated without a bump.
- **Two filter compilers** (`Sql`, `AnalyticsFilter`, `ScimFilter`, `ScimLike`). The emitted clauses get a syntax, a three-valued
  evaluator and a LIKE matcher, and are proved to select exactly the rows or groups the filter means. For the LIKE
  tests this is false for operands with `%`, `_` or a backslash, which the code does not escape; exactly which
  filter trees are affected is proved.
- **Spend forecast** (`Forecast`). The regression's denominator in closed form, both normal equations, and that the
  fitted line is the only one that minimises the squared residuals. The regression counts rows where the forecast counts
  days, so a missing day bends the forecast; exactly when a line over the calendar is continued is proved.
- **Beta learning and the web-search loop** (`Bedrock`, `BetaLearning`, `WebSearch`). The retry is written out three
  times in the program and is modelled three times, each proved against one specification. The loop is proved to end
  within its budget and to end only where it should; nothing the model service said is lost or counted twice.
- **Budgets** (`Calendar`, `BudgetPolicy`, `BudgetCheck`, `EventOutbox`). Windows over a Gregorian calendar built from
  year and month lengths, threshold policies, the verdict on a user and a team, and the event table with its delivery
  loop. The comment on `evaluate` promises the most restrictive triggered action; that is false of
  some accepted policies, and the exact condition is proved, as it is for monotonicity. A refusal always quotes a party
  that blocks; a warning may quote the other one, or a spend of zero, again exactly when is proved. Deleting teams can
  make recorded events equal, and the runs in which that happens are characterised. Delivery is not fair: fifty events
  that keep failing shut out all younger ones, whatever happens to those.
- **Smaller machines** (`LoginWindow`, `Utf8Truncation`, `AipMigration`, `ModelListing`, `NotificationConfig`). Where
  the stated guarantee needs a hypothesis (attempts in clock order, one handler at a time, requests for the migrated
  model) a run or an if-and-only-if shows what happens without it.

What a method does is given by a specification function, and what that function means by lemmas that do without it
(most are named `...Means`): which field, which fallback, which call and which number is stated there outright.

`f64` is modelled by reals and counters by unbounded integers. Upstream, the search provider, the database's answers,
clocks and string libraries are parameters; every theorem holds for all of them.

## Model

| member | source | states |
|---|---|---|
| KeyStore.RefillIsView | src/auth/mod.rs:43-64 | Whatever the row order, clearing the map and refilling it serves exactly the active keys without an owner or with an active one, each with its own id, name, owner, team and rate limit and with its owner's e-mail, if it has an owner. |
| KeyStore.ServesDetermines | src/auth/mod.rs:43-64 | That description, given in terms of the rows alone, leaves room for one map only. |
| KeyStore.KeyCache.LoadFromDb | src/auth/mod.rs:43-64 | A reload replaces the whole map by one that serves exactly what the two queries answered, field by field, or leaves it untouched when a query fails. |
| KeyStore.KeyCache.Insert | src/auth/mod.rs:74-77 | An insert sets one entry and leaves the others. |
| CacheCoherence.StepKeepsInv | src/db/settings.rs:26-38 | Every step of a writer, a poll loop or an admin handler keeps the invariant that ties recorded versions to the writes a replica has seen. |
| CacheCoherence.RunKeepsInv | src/main.rs:1053-1074 | The invariant holds after every interleaving of any number of replicas and writers. |
| CacheCoherence.Coherence | src/main.rs:1053-1074 | A synced replica serves the view of moments of the write history that miss nothing committed before a bump up to its recorded version, nor any write whose own bump is at most that; at the database's version its map is the current view if nothing was committed after the last bump, and every write it missed is a user write if only user rows were. |
| CacheCoherence.SyncedReplicaServes | src/main.rs:1053-1074 | In terms of the rows: a synced replica accepts exactly the keys active at its reload's moments, each entry mirroring its row, and today's if nothing was committed after the last bump and its version is the database's. |
| CacheCoherence.CurrentIffOwnersUnchanged | src/auth/mod.rs:43-64 | At the database's version, when only user rows were written after the last bump, a synced replica's map is the current view if and only if each key of today has an owner of the same standing and e-mail as when the replica last loaded. |
| CacheCoherence.NoWriterPendingLeavesUsers | src/db/settings.rs:26-38 | In every run, once each writer of another row has bumped, only user rows were written after the last bump. |
| CacheCoherence.NextBumpMakesUp | src/db/keys.rs:53 | A run in which a new key's row never gets its own bump and the bump of the next writer announces it. |
| CacheCoherence.CleanRunKeepsSync | src/main.rs:1068-1074 | As long as no reload of its own fails and no admin handler touches the map, a replica stays synced or is reloading. |
| CacheCoherence.CoherentAfterFirstReload | src/main.rs:1061-1074 | From the first successful reload on, a replica left alone by admin handlers and failures is synced whenever idle, so at the database's version it serves the current view if nothing was committed after the last bump, and has missed user writes only if only user rows were. |
| CacheCoherence.PollLoop.PollOnce | src/main.rs:1053-1074 | One turn of the poll loop does what `Tick` says: nothing unless the counter grew, else record and reload. |
| CacheCoherence.TickIsRun | src/main.rs:1053-1074 | A turn without interruption is a run of the transition system, so the loop refines the protocol. |
| CacheCoherence.TickConverges | src/main.rs:1053-1074 | One uninterrupted turn of a replica that is behind ends with the counter recorded and the map equal to the current view. |
| CacheCoherence.FailedTickIsRun | src/main.rs:1061-1074 | A turn whose key or e-mail query fails is a run too: the version counts as seen and the map stays. |
| CacheCoherence.QuietTickIsRun | src/main.rs:1056-1061 | A turn that finds no newer version, or cannot read it, changes nothing. |
| CacheCoherence.StartIsRun | src/main.rs:128-181 | An uninterrupted startup serves the tables as they stand and records the counter, or zero when it cannot be read. |
| CacheCoherence.AdminReloadIsRun | src/api/admin.rs:222-225 | An uninterrupted reload of an admin handler serves the tables as they stand and leaves the recorded version alone. |
| CacheCoherence.AnnouncedWriteIsServed | src/db/keys.rs:53 | Once a write is followed by a bump, the next turn of an idle replica serves the tables with that write made: a created key is accepted, a deleted one is not, a change to a user shows. |
| CacheCoherence.StaleUntilNextBump | src/main.rs:1061-1068 | A replica whose recorded version equals the counter keeps its map, stale or not, until some writer bumps. |
| CacheCoherence.StartupRaceIsStale | src/main.rs:128-181 | A run in which a write commits and bumps between the startup load and the version read leaves a replica stale at the current version. |
| CacheCoherence.FailedReloadIsStale | src/main.rs:1068-1074 | A run in which a reload fails after its version was recorded leaves a replica stale at the current version. |
| CacheCoherence.LateAdminReloadIsStale | src/api/admin.rs:222-225 | A run in which an admin handler's reload overtakes a newer one leaves a replica stale at the current version. |
| CacheCoherence.AdminInsertIsStale | src/api/admin.rs:122-136 | A run in which an admin handler inserts a key that was deleted meanwhile leaves a replica stale at the current version. |
| CacheCoherence.UserWriteGoesUnnoticed | src/db/users.rs:59-95 | A run in which a user is deactivated, which bumps nothing, leaves a synced replica at the current version serving the user's key, with no writer left to bump. |
| Sql.LikePlainSubstring | src/db/scim_groups.rs:153-160 | Under LIKE, `%p%` matches exactly the texts that contain `p` when `p` has no wildcard and no escape. |
| Sql.LikePlainPrefix | src/db/scim_groups.rs:161-168 | Under LIKE, `p%` matches exactly the texts that start with `p` when `p` has no wildcard and no escape. |
| Sql.MetaOperandMisleadsLike | src/db/scim_groups.rs:153-168 | For every other operand there is a text that matches both patterns and contains the operand nowhere. |
| AnalyticsFilter.NamesAreListed | src/db/org_analytics.rs:112-219 | The names taken from a comma-separated selection are exactly its trimmed non-empty items. |
| AnalyticsFilter.TrimIsTheCore | src/db/org_analytics.rs:112-219 | Trimming leaves the stretch with nothing but Unicode whitespace around it and none at its own ends. |
| AnalyticsFilter.CoreIsLongest | src/db/org_analytics.rs:112-219 | Every other stretch without blank ends lies inside that one. |
| AnalyticsFilter.BuildOptionalFilters | src/db/org_analytics.rs:112-219 | The builder, run clause by clause, emits the specified clauses and binds for every mix of list sizes. |
| AnalyticsFilter.FilterBuilder.AddTeam | src/db/org_analytics.rs:116-150 | The team clause and its binds, for no, one and many names, with and without the teamless option. |
| AnalyticsFilter.PlaceholdersInOrder | src/db/org_analytics.rs:38-42 | Read left to right, the placeholders are $2 up to $(1 + number of binds), each exactly once. |
| AnalyticsFilter.CompileMeaning | src/db/org_analytics.rs:112-219 | Under SQL's rules for NULL, the WHERE clause is true of exactly the rows that lie in the period and pass the team, user, model and endpoint selections, an empty selection restricting nothing. |
| AnalyticsFilter.TeamClauseMeaning | src/db/org_analytics.rs:116-150 | The team clause is true exactly of rows whose team is listed, or that have none when `__none__` is listed. |
| ScimFilter.BuildFilterExpr | src/db/scim_groups.rs:132-174 | The recursive compiler that pushes into a shared list appends exactly the specified operands behind what was there and returns the specified expression. |
| ScimFilter.BuildListQuery | src/db/scim_groups.rs:85-130 | The list query with its filter clause and paging parameters, as specified. |
| ScimFilter.PlaceholdersInOrder | src/db/scim_groups.rs:132-174 | An expression numbers its placeholders consecutively from where it starts, one for each operand it binds. |
| ScimFilter.PagingNeverCollides | src/db/scim_groups.rs:85-119 | LIMIT and OFFSET take the two numbers right after all of the filter's, in this order, so none is used twice. |
| ScimFilter.OnlyOwnBindsMatter | src/db/scim_groups.rs:132-174 | What an expression evaluates to depends on its own operands only, wherever in the list of binds they stand. |
| ScimFilter.LaterBindsAreInvisible | src/db/scim_groups.rs:132-174 | Operands bound later never change what an earlier sub-expression evaluates to. |
| ScimFilter.CompileMeaning | src/db/scim_groups.rs:132-174 | For every filter tree with plain LIKE operands, the expression is true exactly of the groups the tree selects: names without case, external ids exactly, unknown attributes never. |
| ScimFilter.ListQueryMeaning | src/db/scim_groups.rs:85-130 | The query returns exactly the groups of the identity provider that the filter selects. |
| ScimFilter.LikeIsFaithfulIffPlain | src/db/scim_groups.rs:153-168 | A containment or prefix test means what section 3.4.2.2 of RFC 7644 says on every group if and only if its operand is free of wildcards and backslashes. |
| ScimLike.LikeTreeIsFaithfulIff | src/db/scim_groups.rs:132-174 | A tree of any number of tests without an equality on the name, whose prefix tests on it do not exclude one another, means what it says on every group if and only if all operands of LIKE are plain or its tests on other attributes exclude one another. |
| ScimLike.NamedTreeIsFaithfulIff | src/db/scim_groups.rs:132-174 | A tree with an equality on the name means what it says on every group if and only if it treats that one name right, or its tests on other attributes exclude one another. |
| ScimLike.ClashingTreeIsFaithfulIff | src/db/scim_groups.rs:132-174 | A tree whose prefix tests on the name exclude one another means what it says if and only if no name matches it, or its tests on other attributes exclude one another. |
| ScimLike.CheapestHalves | src/db/scim_groups.rs:153-168 | The cheapest text an operand matches has at most half of its backslashes, so the operand with the most of them occurs in no such text. |
| ScimLike.DanglingEndsAnywhere | src/db/scim_groups.rs:153-168 | An operand that ends in a backslash which escapes nothing of it matches only texts that end in a percent sign. |
| Forecast.SpendForecast | src/db/org_analytics.rs:720-753 | The actual points stay an unchanged prefix, and exactly the projected days follow, each the fitted line clamped at zero; none are added for fewer than two costs or an unreadable last day. |
| Forecast.CostsConcat | src/db/org_analytics.rs:720-723 | The costs are taken row by row, in order. |
| Forecast.CostsOfOne | src/db/org_analytics.rs:720-723 | A row with a cost counts, whatever the cost is, and one without does not. |
| Forecast.DenominatorClosedForm | src/db/org_analytics.rs:723-729 | The denominator is n squared times (n squared minus one) over twelve. |
| Forecast.GuardPassesIffTwoCosts | src/db/org_analytics.rs:729-730 | The division guard passes exactly when there are at least two costs. |
| Forecast.NormalEquations | src/db/org_analytics.rs:731-732 | The computed slope and intercept satisfy both normal equations. |
| Forecast.FitIsLeastSquares | src/db/org_analytics.rs:731-732 | No line has a smaller sum of squared residuals, and every other line has a larger one. |
| Forecast.LinearHistoryIsContinued | src/db/org_analytics.rs:731-745 | Costs that lie on a line over their positions are forecast as that line continued, clamped at zero. |
| Forecast.ForecastFollowsTheCalendarIff | src/db/org_analytics.rs:705-745 | Costs that lie on a line over the calendar are forecast as that line continued, clamped at zero, if and only if the line is level or every day from the first one with a cost to that of the last row has a cost; told on any two forecast days on which the line is above zero. |
| Forecast.MissingDayBendsTheForecast | src/db/org_analytics.rs:705-745 | The costs 0 and 2 of days 0 and 2 give 4 for day 3, where their line over the calendar gives 3. |
| Forecast.OneRightDayProvesNothing | src/db/org_analytics.rs:720-745 | With days missing, one forecast day can be right and the next wrong, so two are needed to tell. |
| Forecast.ClampingHidesTheBend | src/db/org_analytics.rs:741-745 | With days missing, a forecast of a falling line can be right because both are clamped at zero. |
| BetaLearning.StripIsFilter | src/api/handlers.rs:1592-1604 | Stripping distributes over concatenation, so it keeps the order of what stays. |
| BetaLearning.StripCounts | src/api/handlers.rs:1592-1604 | Stripping removes every occurrence of the rejected strings and no other element. |
| BetaLearning.RetainAgreesIffSomethingLeft | src/api/handlers.rs:1589-1604 | The rebuilt body equals the encoding of the request with the betas taken out exactly when the list was empty or something of it is left. |
| BetaLearning.ParsedMembers | src/translate/betas.rs:12-19 | The rejected betas are exactly the forwarded ones that the lower-cased message mentions. |
| BetaLearning.InvokeNonStreaming | src/api/handlers.rs:1330-1485 | The non-streaming path calls again exactly when upstream refused the first body as invalid and names a forwarded beta; it answers with the second answer if that is an acceptance, else with the first, and makes the capability updates of the exchange under the request's profile. |
| BetaLearning.InvokeStreaming | src/api/handlers.rs:1627-1697 | The streaming path calls again in the same cases and makes the same updates, but answers with the second answer whatever it is. |
| BetaLearning.InvokeWebSearchFirst | src/api/handlers.rs:1960-2047 | So does the first call of the web-search loop, which after a second call also strips the rejected betas from the typed request for the later rounds. |
| BetaLearning.LearnIsSound | src/api/handlers.rs:1354-1485 | At most two calls; no beta is marked both ways; each beta marked supported was in a body upstream accepted; each marked unsupported was forwarded and named in the rejection, and is missing from the retry. |
| BetaLearning.LearnMeans | src/api/handlers.rs:1354-1485 | From context, body and answers alone: there is a second call if and only if the first answer is a validation error that mentions a forwarded beta and the body parses; it sends the body without the rejected betas; a beta is marked unsupported if and only if it was rejected, and supported if and only if the last answer accepts and it was unknown and not rejected. |
| BetaLearning.EndpointClient.MarkBeta | src/endpoint/mod.rs:125-178 | A mark overwrites what was learned and never an administrator's override. |
| BetaLearning.MarksTakeEffect | src/endpoint/mod.rs:101-178 | After an exchange each marked beta without an override has an entry with the marked status, and each unmarked beta of the profile the status it had. |
| BetaLearning.MarksLeaveTheRest | src/endpoint/mod.rs:125-178 | Entries of other profiles, entries under an override and entries of unmarked betas are exactly as before, and none of them appears. |
| BetaLearning.FilterBetas | src/translate/betas.rs:38-63 | Kept, dropped and unknown are the incoming betas filtered by what is known of each, in order and as often as they occur; kept and dropped together are the incoming ones. |
| BetaLearning.OnlyConcat | src/translate/betas.rs:38-63 | The filter distributes over concatenation, so it keeps the order. |
| BetaLearning.OnlyCounts | src/translate/betas.rs:38-63 | The filter keeps every occurrence of what passes and none of the rest. |
| BetaLearning.NextRequestKnows | src/translate/betas.rs:38-63 | What one request learned about a beta without an override decides whether the next one forwards it. |
| WebSearch.ExecuteSearches | src/api/handlers.rs:2098-2148 | The loop over a reply's calls computes the specified round: results, count, attempts and found searches. |
| WebSearch.RoundAnswersEveryCall | src/api/handlers.rs:2098-2148 | A round has one result for each call, in order and under the same id; the count rises by the successes and never passes the limit; a round of errors adds nothing. |
| WebSearch.RoundAsksItsCalls | src/api/handlers.rs:2098-2148 | Below the limit, the i-th call asks the provider for its own query as the next attempt, and its result carries the wording of that answer and is an error exactly when there was none; at the limit nothing is asked and the limit text is returned. |
| WebSearch.FoundIsTheLastAnswer | src/api/handlers.rs:2098-2148 | What is kept for an id is the answer to its last successful call, or what was kept before when none succeeds. |
| WebSearch.FoundOverTheConversation | src/api/handlers.rs:2089-2178 | All rounds together are one round over all calls, with one count, one numbering of attempts and one store, so the same holds of the whole conversation. |
| WebSearch.SearchesConcat | src/websearch/mod.rs:346-366 | The calls of a reply are taken block by block, in order. |
| WebSearch.SearchesOfOne | src/websearch/mod.rs:346-366 | A block is a call exactly if it uses the search tool and has an id; its query is empty if it is absent. |
| WebSearch.NoSuccessIffAllErrors | src/api/handlers.rs:2150-2163 | A round in which not every result is an error has at least one success. |
| WebSearch.TurnAnswersEveryCall | src/api/handlers.rs:2165-2178 | The user's turn of each round has exactly one result for each search call of the reply before it, same ids, same order, and some successes. |
| WebSearch.TurnReportsTheRound | src/api/handlers.rs:2165-2178 | The assistant's turn repeats the reply, and the user's results are the provider's answers to that reply's calls. |
| WebSearch.GoesOnIff | src/api/handlers.rs:2089-2163 | The conversation goes on if and only if the reply stopped for a tool, searches are left, and the provider would answer one of the reply's calls, each made as the next attempt. |
| WebSearch.UsagesAreSums | src/api/handlers.rs:2080-2087 | Each of the four token totals is the sum of its own counts over the replies. |
| WebSearch.Respond | src/api/handlers.rs:2089-2178 | The conversation goes on exactly when the reply stopped for a tool and one of its searches succeeds, and is then extended by exactly the two turns. |
| WebSearch.HandleWithWebSearch | src/api/handlers.rs:1908-2186 | At most min(max uses, 10) + 1 calls and one retry; the hard cap is reached only for limits above ten; the loop stops after the first reply that does not go on and fails only with upstream; content and the four token totals are those of all replies, once each, in order; each body sent carries exactly the history of its moment; the bodies after the first exchange carry the original betas, without the rejected ones when there was a rejection. |
| WebSearch.RewriteInPlace | src/websearch/mod.rs:370-396 | The in-place rewriting, insertions included, computes the block-by-block rewriting. |
| WebSearch.RewriteKeepsBlocks | src/websearch/mod.rs:370-396 | Rewriting keeps every block in order and changes only the kind of search calls. |
| WebSearch.RewriteInsertsResults | src/websearch/mod.rs:370-396 | It inserts one result block for each search call with an id, in order. |
| WebSearch.FoundFollowsItsCall | src/websearch/mod.rs:370-396 | Each inserted result stands right behind its call and holds what was found for its id, or nothing. |
| Calendar.ClosedForm | src/budget/mod.rs:62-79 | Adding up year lengths gives the usual leap-year count, so the years are the Gregorian ones, before year one too. |
| Calendar.DayNumberClosedForm | src/budget/mod.rs:62-79 | The day number of every date is that of the usual formula, which has no table of months. |
| Calendar.MonthLengthClosedForm | src/budget/mod.rs:91-111 | Each month has the days from its first to the next month's by the formula, and weeks are anchored at a known Monday. |
| Calendar.DayNumberIsMonotone | src/budget/mod.rs:62-79 | Day numbers order valid dates as the calendar does. |
| Calendar.CivilInvertsDayNumber | src/budget/mod.rs:62-79 | Dates and day numbers determine each other. |
| Calendar.WindowsFollowTheCalendar | src/budget/mod.rs:62-111 | A day lies in its window; windows last one day, seven days from a Monday, or the month's length from its first day, across leap years and December. |
| Calendar.WindowsByTheFormula | src/budget/mod.rs:62-111 | By the formula's numbers: windows start at midnight; a week runs from the Monday at or before the day to the next; a month from its first to the next month's. |
| Calendar.NowIsInWindow | src/budget/mod.rs:62-111 | Start is at or before now, and now is before the next start. |
| Calendar.WindowsPartitionTime | src/budget/mod.rs:62-111 | An instant lies in another's window if and only if both have the same start and the same next start. |
| Calendar.NextStartBeginsAWindow | src/budget/mod.rs:81-111 | The next start is the start of its own window. |
| BudgetPolicy.ValidatePolicy | src/budget/mod.rs:180-212 | Accepts exactly the valid policies; otherwise names the first fault of the first faulty rule. |
| BudgetPolicy.AcceptedIff | src/budget/mod.rs:180-212 | Accepted are at most five rules with percents from one up, none below or behind a block of the rule before it, and a rate for each shape. |
| BudgetPolicy.FaultsInOrder | src/budget/mod.rs:180-212 | Of several faults of a rule the first is named: zero percent, falling percent, behind a block, shape without rate. |
| BudgetPolicy.Evaluate | src/budget/mod.rs:216-242 | The loop over percentages returns the decision of the last triggered rule. |
| BudgetPolicy.DecideMeans | src/budget/mod.rs:216-242 | For any rules and a positive limit the last triggered rule decides by its own action, percent and rate, five a minute when it has none; otherwise all is allowed. |
| BudgetPolicy.PresetsDecide | src/budget/mod.rs:124-177 | What the three presets decide at every spend, spelled out. |
| BudgetPolicy.TriggeredIffPercentReached | src/budget/mod.rs:216-242 | A rule is triggered exactly when the spend in percent of the limit reaches its percentage. |
| BudgetPolicy.TriggeredRulesFormAPrefix | src/budget/mod.rs:216-242 | For an accepted policy the triggered rules are a prefix, and its last rule decides. |
| BudgetPolicy.BlocksIffBlockRuleReached | src/budget/mod.rs:216-242 | The decision is to block exactly when a block rule exists and the spend reaches its percentage of the limit. |
| BudgetPolicy.BlockedStaysBlocked | src/budget/mod.rs:216-242 | A blocked spend stays blocked, with the same threshold, as it grows. |
| BudgetPolicy.DecisionIsATriggeredRule | src/budget/mod.rs:216-242 | For any rules, a decision other than to allow is that of a triggered rule under a positive limit. |
| BudgetPolicy.MostRestrictiveIffSeverityAscends | src/budget/mod.rs:214-242 | The decision is the most restrictive triggered action at every spend and limit if and only if each rule that ends a run of equal percents is at least as severe as all rules before it. |
| BudgetPolicy.NotifyCanOverrideShape | src/budget/mod.rs:180-242 | An accepted policy, shape at 80 and notify at 100 percent, whose decision is not the most restrictive one. |
| BudgetPolicy.DecisionIsMonotone | src/budget/mod.rs:216-242 | When severities ascend among the rules that end a run of equal percents, spending more never loosens the decision. |
| BudgetPolicy.MonotoneIffEndsAscend | src/budget/mod.rs:216-242 | An accepted policy never loosens with more spending, at any limit, if and only if severities ascend among the rules that end a run of equal percents. |
| BudgetPolicy.PresetsAreMostRestrictive | src/budget/mod.rs:124-177 | All three presets decide for the most restrictive triggered action. |
| BudgetPolicy.PresetsNeverLoosen | src/budget/mod.rs:124-177 | No preset ever loosens its decision with more spending. |
| BudgetPolicy.Combine | src/budget/mod.rs:245-255 | The combination is one of the two decisions, at least as severe as both, the first on a tie. |
| BudgetCheck.CheckBudget | src/api/handlers.rs:2380-2628 | A known user's request is refused if and only if the user's or the team's policy blocks; the refusal's threshold, spend, limit and period are those of a party that blocks; a status has the kind of the combined decision and the percentage, remainder and period of the user, or of the team when the user has no limit, with a spend of zero when the cache has lost it meanwhile; one event is recorded for each party whose policy does more than allow; the cache keeps what was read. |
| BudgetCheck.ReadUser | src/api/handlers.rs:2395-2445 | The user's limit, period, spend and policy by the fallback chains from the user over the team to the global default and the standard preset. |
| BudgetCheck.UserLimitMeans | src/api/handlers.rs:2395-2423 | A user's own limit and period always win; without one the team's default and period count, even when the default is absent; the global default counts only with neither limit nor team. |
| BudgetCheck.UserSpendMeans | src/api/handlers.rs:2425-2440 | The spend is the cached one, else what the database sums up for that period, else zero. |
| BudgetCheck.UserPolicyMeans | src/api/handlers.rs:2442-2449 | The policy is the team's, else that of the global default where that counts, else the standard preset. |
| BudgetCheck.TeamPartyMeans | src/api/handlers.rs:2480-2550 | The team's limit, period, spend and policy, or none of it without a budget. |
| BudgetCheck.OwnLimitRefuses | src/api/handlers.rs:2380-2628 | Without a policy of the team, a user whose own positive limit is used up is refused, whatever the team's defaults are. |
| BudgetCheck.EventsMean | src/api/handlers.rs:2450-2480 | One event is recorded of a party exactly if its policy does more than allow, with its decision, spend, limit, percentage and period. |
| BudgetCheck.StatusMeans | src/api/handlers.rs:2550-2628 | A status is within budget, a warning or shaped as the more severe side is, with that side's rate; its percentage, remainder and period are those of the party it quotes. |
| BudgetCheck.BlockIsJustified | src/api/handlers.rs:2746-2751 | A party that blocks has a positive limit, and its spend over limit reaches the threshold, so the response never divides by zero. |
| BudgetCheck.StatusIsAttributedIff | src/api/handlers.rs:2550-2628 | The party a status quotes decides as the status says if and only if the user's decision is at least as severe as the team's, or, when the user has no limit, the cache still has the team's spend or the team's decision is to allow; for policies whose percentages are positive. |
| BudgetCheck.StatusIsAttributedIffAnyPolicy | src/api/handlers.rs:2550-2628 | The same for every policy, with the team's decision at a spend of zero in place of to allow. |
| BudgetCheck.AttributedPercentReachesThreshold | src/api/handlers.rs:2596-2626 | Where a status is attributed, the percentage shown reaches the threshold it warns of. |
| BudgetCheck.WarningCanQuoteTheOtherParty | src/api/handlers.rs:2550-2628 | A team at 90 percent makes the status a warning, which is then reported with the user's 10 percent. |
| BudgetCheck.ExpiredSpendIsShownAsZero | src/api/handlers.rs:2560-2570 | A team at 90 percent whose cached spend expires during the check gets a warning that shows 0 percent. |
| EventOutbox.EventTable.InsertEvent | src/db/budget.rs:71-120 | An event is inserted exactly when no row has its user, team, threshold and period start, NULLs being equal. |
| EventOutbox.InsertedMeans | src/db/budget.rs:71-120 | A new event is appended as given and undelivered; a recorded one changes nothing. |
| EventOutbox.TeamDeletedMeans | migrations/001_init.sql:222-235 | A team's deletion takes it out of its events' keys and leaves all else. |
| EventOutbox.EventTable.GetUndelivered | src/db/budget.rs:123-131 | Exactly the oldest undelivered rows up to the limit, in order. |
| EventOutbox.RunKeepsDistinct | src/db/budget.rs:71-120 | As a special case, no two events of a run without a team deletion share user, team, threshold and period start. |
| EventOutbox.TeamDeletionKeepsDistinctIff | migrations/001_init.sql:222-235 | Deleting a team keeps events distinct exactly when no event of the team has a teamless twin. |
| EventOutbox.RunKeepsDistinctIff | src/db/budget.rs:71-120 | After any run the events are distinct if and only if no team deletion of the run met, at its moment, an event of the team with a teamless twin. |
| EventOutbox.DeletedTeamsLeaveDuplicates | migrations/001_init.sql:222-235 | A run from the empty table that breaks the promise: two teams record events with the same threshold and period start, and both teams are deleted. |
| EventOutbox.DeliverOnce | src/budget/notifications.rs:215-333 | One cycle attempts each wanted event of its batch once, oldest first, and marks exactly those that were sent, unwanted or had nowhere to go, unless the mark fails. |
| EventOutbox.DeliveryCycle | src/budget/notifications.rs:215-272 | A turn whose fetch fails changes nothing; otherwise the stored configuration decides, then the environment's, then none, and the batch is delivered accordingly. |
| EventOutbox.WantedMeans | src/budget/notifications.rs:31-37 | Sent are events of a listed category; budget events when the stored list is not one or comes from the environment; none without a destination. |
| EventOutbox.PlanMeans | src/budget/notifications.rs:240-272 | Events go to the stored destination as its kind says, else to that of the environment, as a topic if it starts like one and as a web hook otherwise. |
| EventOutbox.TickMeans | src/budget/notifications.rs:215-333 | A row ends a cycle delivered if it was, or if fewer than fifty pending rows precede it, it is sent to the destination unless unwanted, and the mark succeeds; nothing else of it changes. |
| EventOutbox.DeliveredIffSettled | src/budget/notifications.rs:215-333 | In every run an event is delivered if and only if it was before or some cycle settled it; so none becomes undelivered again, and a failed one stays pending. |
| EventOutbox.BacklogDrains | src/budget/notifications.rs:222-240 | When each cycle settles the events of its own batch, it takes the fifty oldest off the backlog, whatever is recorded meanwhile. |
| EventOutbox.DrainedAfterCeiling | src/budget/notifications.rs:222-240 | A backlog of N is then delivered after exactly N/50 cycles, rounded up. |
| EventOutbox.SucceedingSettlesBatch | src/budget/notifications.rs:242-333 | A cycle settles its batch when the marks of the batch and the sends it wants succeed. |
| EventOutbox.FullBatchStarves | src/db/budget.rs:123-131 | If fifty or more events are pending and no cycle settles an event of its batch, then after any run the delivered events are exactly those delivered at the outset: neither the older ones nor any younger or later one is delivered. |
| EventOutbox.DeadDestinationFailsBatch | src/budget/notifications.rs:222-240 | A cycle whose destination rejects every send settles none of a batch of wanted events, though the database works. |
| LoginWindow.Limiter.Attempt | src/api/mod.rs:303-314 | Prunes the expired attempts, then admits and records the attempt exactly when fewer than ten are left. |
| LoginWindow.HeldIsRecentAdmitted | src/api/mod.rs:306-311 | Seen from a moment no earlier than any reading so far, in whatever order those came, what is held is the recent part of everything ever admitted. |
| LoginWindow.RejectedIffTenRecent | src/api/mod.rs:306-312 | An attempt whose reading is no earlier than any before it is rejected exactly when ten were admitted in the sixty seconds before it. |
| LoginWindow.HeldAreTheSurvivors | src/api/mod.rs:303-314 | In whatever order the readings come, what is held are, in order, the admitted attempts that were recent at every later reading. |
| LoginWindow.AdmittedIffFewSurvive | src/api/mod.rs:303-314 | So an attempt is admitted exactly when fewer than ten of those are recent at its reading. |
| LoginWindow.ElevenSpanAMinute | src/api/mod.rs:303-314 | In every run in clock order, eleven consecutive admitted attempts span at least sixty seconds. |
| LoginWindow.ElevenSpanAMinuteLessLag | src/api/mod.rs:303-314 | If no reading lags an earlier one by more than d seconds, the last of eleven consecutive admitted attempts comes at least sixty seconds less d after one of the ten before it. |
| LoginWindow.RejectedLeaveNoTrace | src/api/mod.rs:306-312 | A run without its rejected attempts admits the same attempts. |
| LoginWindow.UnorderedAttemptsSlipThrough | src/api/mod.rs:303-314 | A run in which an attempt reads the clock early and takes the lock late admits an eleventh at the same instant. |
| Utf8Truncation.Snippet | src/api/handlers.rs:1185-1196 | For valid UTF-8 over a hundred bytes, a valid prefix of 97 to 100 bytes and the longest valid one of at most a hundred; shorter texts unchanged. |
| Utf8Truncation.ValidIffEncoded | src/api/handlers.rs:1185-1196 | A text is valid exactly if it is the encoding, six bits to a byte, of some sequence of code points other than surrogates. |
| Utf8Truncation.PrefixValidIffBoundary | src/api/handlers.rs:1187-1190 | In valid text, a prefix is valid exactly when the single-byte boundary test accepts its end. |
| AipMigration.MigrateLegacyEndpoints | src/migrations/aip_legacy.rs:31-108 | The loop with its early exits computes the specified table. |
| AipMigration.OverrideTable.Insert | src/db/endpoint_aip_overrides.rs:22-43 | An insert succeeds exactly when the key is new and the statement does not fail, and then adds that row. |
| AipMigration.MigrationIsIdempotent | src/migrations/aip_legacy.rs:31-108 | For any candidates and resolver, a second run changes nothing. |
| AipMigration.ExistingRowsAreUntouched | src/migrations/aip_legacy.rs:44-66 | No row is changed or removed, and endpoints that had rows get none. |
| AipMigration.EndpointsAreIndependent | src/migrations/aip_legacy.rs:40-107 | An endpoint's rows after a run depend on its own rows and candidates alone, so a failing endpoint never affects another. |
| AipMigration.RunMigratesOnceOrNever | src/migrations/aip_legacy.rs:40-107 | An endpoint without rows ends with none or with exactly one, for the model resolved from one of its candidates. |
| AipMigration.FirstAbleCandidateIsMigrated | src/migrations/aip_legacy.rs:40-107 | An endpoint without rows is migrated exactly if for one of its candidates listing, resolving and inserting succeed, and then for the first such, with the migration's author and reason. |
| AipMigration.DispatchMeans | src/api/handlers.rs:4600-4621 | A model's own row decides; other rows alone send it to the default profile, and no rows to the legacy one. |
| AipMigration.ReportMeans | src/api/admin.rs:2408-2418 | Reported is the profile of a sole row, the legacy one when there is none, else nothing. |
| AipMigration.RunKeepsResolvedModel | src/api/handlers.rs:4600-4621 | Over a whole run, requests for the resolved model keep their dispatch target and the reported profile stays. |
| AipMigration.MigrationKeepsResolvedModel | src/api/admin.rs:2408-2418 | A migrated endpoint dispatches the resolved model to the legacy profile and reports that profile, as before. |
| AipMigration.OtherModelsKeepTargetIff | src/api/handlers.rs:4600-4621 | Any other model keeps its dispatch target after migration exactly when its own target already was the legacy profile. |
| ModelListing.SortedListIsUnique | src/api/handlers.rs:222-228 | A set of ids has only one sorted, duplicate-free list. |
| ModelListing.LessMeans | src/api/handlers.rs:222-228 | Ids are ordered by the first place where they differ, a part before the whole. |
| ModelListing.BuildModels | src/api/handlers.rs:192-228 | Sorted, duplicate-free bare ids, then sorted, duplicate-free variants of exactly the pairs whose profile supports the beta. |
| ModelListing.ListModels | src/api/handlers.rs:270-356 | The same over all profiles known by default or from an endpoint, with support merged over the endpoints. |
| ModelListing.VariantIffSupported | src/api/handlers.rs:318-351 | A variant is listed exactly when an endpoint that advertises the profile has the beta recorded as supported. |
| ModelListing.BareIffKnown | src/api/handlers.rs:270-318 | A bare id is listed exactly when it names a profile of the default list or of some endpoint. |
| ModelListing.ListIgnoresOrderAndRepetition | src/api/handlers.rs:270-356 | The ids do not change under reordering or repetition of the default list, of the endpoints or of what each advertises. |
| ModelListing.ListRepeatsIffIdsClash | src/api/handlers.rs:230-252 | The whole list repeats an id exactly when there are a known profile and a supported pair of profile and beta such that the name of the first is the name of the second with the beta's suffix. |
| NotificationConfig.Store.SaveConfig | src/api/admin.rs:3421-3458 | A save the validation accepts writes the draft and clears its test result; a rejected one changes nothing. |
| NotificationConfig.Store.TestNotification | src/api/admin.rs:3506-3583 | A test delivers to the draft's destination and records the result on the draft. |
| NotificationConfig.Store.ActivateNotification | src/api/admin.rs:3586-3628 | Activation happens exactly for a draft whose last test succeeded, and replaces the active row by it. |
| NotificationConfig.StepHasItsEffect | src/db/notification_config.rs:76-186 | What each handler makes of the draft, of the active row and of the log: a test overwrites the draft's last result, a failure included; activation moves the draft; everything else stays. |
| NotificationConfig.StepKeepsInv | src/db/notification_config.rs:76-186 | Every handler keeps one row per slot, and recorded passes honest. |
| NotificationConfig.RunKeepsInv | src/api/admin.rs:3421-3664 | So does every run of handlers. |
| NotificationConfig.ActiveDestinationWasTested | src/api/admin.rs:3586-3628 | After any run there is at most one active row, and the log holds a passed test of exactly its destination. |
| NotificationConfig.PromoteIsHonestIff | src/db/notification_config.rs:106-127 | Promotion keeps the table honest exactly when the draft has passed a test since its last edit. |
| NotificationConfig.RecordIsHonestIff | src/db/notification_config.rs:153-169 | Recording a test result keeps it honest exactly when the draft still is the one tested, or failed, or had passed before. |
| NotificationConfig.SaveDuringTestGoesUntested | src/api/admin.rs:3506-3560 | With a save between a test's delivery and its recording, an untested destination goes active. |

## Left out

- HTTP routing, authentication of requests, response bodies, streaming of events, metrics, logging and the CLI: plumbing without an algorithm.
- The poll loop's other reloads (identity providers, endpoints, settings, model mappings): they follow the same counter and were left out as further copies of the key map's.
- Key expiry: whether a key has expired depends on the clock of the query; active keys are those that are active with an active user.
- Floating point: rounding, NaN and infinity, in the forecast and in percentages of a budget.
- Widths of integers: wrap-around of the 64-bit version counter and of the 32-bit token counts.
- ScimLike.ClashingTreeIsFaithfulIff: whether some name matches several wildcard prefixes at once is not decided from the operands.
- Forecast.SpendForecast: the query itself, whose rows are taken to be readable, distinct days in ascending order where the calendar matters.
- ScimFilter.LikeIsFaithfulIffPlain: lower-casing is an arbitrary function on single characters that leaves wildcards alone; Unicode's length-changing cases are not modelled.
- BetaLearning.InvokeNonStreaming: capability entries do not expire, and the source of a mark is reduced to whether an administrator set it; an unknown beta is assumed to be among the forwarded ones where a supported mark is justified.
- WebSearch.HandleWithWebSearch: an array of content that is absent reads as empty; the wording of search results and of search errors is a parameter, and the text of an error does not depend on its cause.
- Calendar.Civil: years are unbounded, where the date library stops at about 262,000; leap seconds are not modelled.
- BudgetCheck.CheckBudget: failed queries read as missing rows, as in the code; the check for keys that belong to a team alone and the status endpoint are further copies and were left out.
- EventOutbox.DeliverOnce: a cycle is one step, so recordings and team deletions fall between cycles; check-then-insert is atomic, as the code gives no guarantee otherwise; creation times follow insertion order.
- AipMigration.MigrateLegacyEndpoints: the resolver and the database answer the same question alike throughout a run; rows carry no timestamp.
- ModelListing.ListModels: display names, dates and the first and last id fields; sorting is by insertion, standing for the library's.
- NotificationConfig.Store.TestNotification: test times and error texts, and the counter bumps of the statements.
- Routing between endpoints, rate limits, price estimates, model-name translation and SCIM membership: not part of the algorithms above.
