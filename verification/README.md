# Halaqaty: schedule engine, recitation queue and outbox delivery

A Dafny model of three parts of the backend, with proofs of what they promise.

**The schedule engine.** `Recurrence` expands effective-dated rules by jumps and shows the result
equal to a day-by-day filter. `Timezone` resolves local clocks to instants. `Calendar` states what a
viewer can see under each key and how the start command resolves one occurrence; `CalendarMonth`
builds the month in passes over mutable maps and shows that it agrees with both; `CalendarRows` says
what month and start command make of the rows. `Overlap` and
`OverlapCheck` compare proposed plans with the viewer's commitments and say exactly when fetching only
the months a plan touches is enough; `ViewerMonths` is those months as a zone and the date library
give them; `OverlapPlan` takes a plan from validation to acceptance. `Reminders` is the reminder point
test. `Days` holds civil-day arithmetic and ordered lists: a civil date is a day
number (1970-01-01 is day 0, a Thursday), an instant a number of seconds since then.

**The recitation queue.** `QueueModel` gives the tables and, for each command, the state it commits
or the error it reports. `QueueInvariants` says what every reachable state keeps and how two states
of a run relate; `QueueSteps` proves both for every command; `QueueRuns` draws the consequences for
whole runs from the empty tables, `QueueRetries` for commands delivered twice, `QueueMarks` for
rounds that ask for no grade, `QueueSealed` for finalized ones,
`QueueCorrections` for completed entries. `QueueVerdicts` says exactly when each command commits and
with which error it is refused, `QueueEffects` and `QueueOpenings` what it changes and what it leaves
alone, all of them read off the tables. `QueueReposition` is the two-pass move of one entry.
`QueueStore` is the same commands written the way the services are, statement by statement inside a
transaction that is rolled back on failure, each proved to do what the model's command says.
`QueueConvergence` is the retry loop that closes an ended session while other transactions commit
and its own may fault.

**Outbox delivery.** `QueueOutbox` and `ChatOutbox` are the two lease, retry, park and replay
protocols as interleaved steps over rows and in-flight copies, with crashes.

Verify with `dafny verify dfyconfig.toml`.

## How it is modelled

- Transactions are atomic: a command commits or changes nothing. A reset outside an enclosing
  transaction is two commands, and the session lock it holds between them is part of the state:
  commands that need the lock report `LockHeld`, where the backend would wait. Losing the connection
  is `ResetAbandon`, which releases the lock and nothing else; a second half that fails releases it in
  the same call (`QueueStore.Store.ResetOpen`), which in a run is the failed command and then
  `ResetAbandon` (`QueueStore.FailedResetReleases`).
- Rows of the queue tables are never deleted by these services, so a table is a sequence and a
  primary key its index. The queue's preorder is the list of students in position order.
- Query results about circles (members, presence, a joiner's membership, a manager's role) and the
  clock are parameters of the commands; a list of students from a query keyed by student names each
  once. Unbounded integers stand for versions, positions and numbers.
- A zone is any function from instants to offsets of less than a day. The date library gives, for a
  local reading, an instant within a day of it that shows the reading if any instant does; which
  one, and what it gives for a skipped reading, is left open. SHA-256 is any injective
  function. A circle's rows are those of one viewer's circles; stored rows satisfy the table
  constraints (distinct versions in a schedule, one exception row per key, replacement start, end and
  duration all set or all absent).
- The move of a round with more than a million entries depends on the order in which the staging
  update visits rows; the model visits them in key order. Up to a million entries the order does not
  matter (`QueueReposition.SmallRoundsMoveFreely`).
- Outbox times are nanoseconds of one clock shared by the database and the dispatchers.

Three places where the code does not do what a reader would expect are stated exactly. A row that
replaces only the title is used by the start command and ignored by the calendar
(`CalendarMonth.TitlesAgreeExactly`, with `TitleOnlyRowDiffers`). A dispatcher that crashes holding a
chat event's fifth claim leaves a row no claim and no replay can reach
(`ChatOutbox.DeliverableUnlessStranded`, with `LostFifthClaimStrands` and `StrandedIsReached`). And the
overlap check fetches months from the edge of the month in which a proposed interval starts, which
can miss a conflict when the clock shows that month before its edge, being set back over midnight,
or when it never shows the midnight at all (`ViewerMonths.CoversExactly`, with `SkippedMidnightLosesTheMonth`,
and `OverlapCheck.ConflictsAreFetched`). The comment on an entry's grade
(`backend/internal/queue/queue_types.go:198`) reserves it for grading-required rounds; the code lets a
correction add a grade to any completed entry, as the command contract allows, and the model follows
the code.

## Model

| member | source | states |
|---|---|---|
| Recurrence.ValidatePattern | backend/internal/scheduling/recurrence.go:72-146 | A revision is accepted exactly when its header and the selectors of its mode are well formed; each of the five rejections is returned exactly in its own case |
| Recurrence.LegalPatterns | backend/internal/scheduling/recurrence.go:72-146 | What a well-formed rule is, mode by mode, in terms of its own selectors |
| Recurrence.OccurrenceDates | backend/internal/scheduling/recurrence.go:152-171 | The dispatching date generator returns, strictly ascending, exactly the days a day-by-day filter from the anchor would keep in the clipped bounds, however far the window lies from the anchor |
| Recurrence.WeekdayDates | backend/internal/scheduling/recurrence.go:173-196 | The week-jumping loop keeps exactly the matching days of the bounds, for either cadence, and ends |
| Recurrence.IntervalDates | backend/internal/scheduling/recurrence.go:198-214 | The interval loop, entered by one ceiling jump, keeps exactly the days a whole number of steps from the anchor |
| Recurrence.JumpLands | backend/internal/scheduling/recurrence.go:203-208 | The ceiling division lands on the first candidate at or after the lower bound and skips none |
| Recurrence.FirstWeek | backend/internal/scheduling/recurrence.go:178-184 | Rounding the week index up to the cadence lands on a matching week and passes over no matching day |
| Recurrence.ListedDates | backend/internal/scheduling/recurrence.go:216-228 | Selected dates come out sorted, within bounds, and complete |
| Recurrence.OccursByMode | backend/internal/scheduling/recurrence.go:152-228 | A day occurs exactly when it is in force and, by mode, falls on a chosen weekday a whole number of cadences of weeks from the anchor's week, lies a whole number of the rule's days or weeks from the anchor, or is selected |
| Days.WeekdaysFollow | backend/internal/scheduling/recurrence.go:173-196 | Day 0 is a Thursday, weekdays follow each other, and a week starts on its last Sunday |
| Recurrence.AnchorOccurs | backend/internal/scheduling/recurrence.go:72-146 | A validated rule that is in force by its anchor produces the anchor in exactly the windows that contain it |
| Recurrence.SelectRevision | backend/internal/scheduling/recurrence.go:234-246 | The loop returns the highest version in force on the date, or none when none is |
| Recurrence.GoverningIsUnique | backend/internal/scheduling/recurrence.go:234-246 | With distinct versions the governing revision is determined by the date alone |
| Recurrence.OccurrenceWindow | backend/internal/scheduling/recurrence.go:255-277 | The per-revision expansion, filtered and sorted, equals the day-by-day list: each day at most once, exactly when its governing revision generates it |
| Recurrence.WindowIgnoresOrder | backend/internal/scheduling/recurrence.go:255-277 | The window does not depend on the order of the revisions |
| Recurrence.WindowSplits | backend/internal/scheduling/recurrence.go:255-277 | A window is the concatenation of its two parts at any interior day |
| Recurrence.WindowAtPoint | backend/internal/scheduling/calendar_service.go:374-381 | The one-day test agrees with every window around the day |
| Recurrence.AppendKeepsThePast | backend/internal/scheduling/recurrence.go:234-277 | A revision appended with a higher version leaves every window before its effective date unchanged |
| Recurrence.AppendOwnsTheFuture | backend/internal/scheduling/recurrence.go:234-277 | From its effective date on every window is exactly the appended revision's own dates |
| Timezone.ResolveStartUTC | backend/internal/scheduling/timezone.go:85-111 | The probing loop returns the earlier of the candidate instants that show the reading, else the shifted one |
| Timezone.ResolvesOneOfTwo | backend/internal/scheduling/timezone.go:85-111 | The start takes one of the offsets 26 hours before and after the reading: the earlier of those that show it, the first when neither does |
| Timezone.LegalClocksAndDurations | backend/internal/scheduling/timezone.go:13-14 | Clocks run from 00:00 to 23:59, durations from one minute to 31 days |
| Timezone.StartsWithinADay | backend/internal/scheduling/timezone.go:85-111 | A resolved start is less than a day from the UTC reading of the same clock, for every zone with offsets below a day |
| Timezone.FirstShowingIsProbed | backend/internal/scheduling/timezone.go:85-111 | In a zone of whole minutes the resolved start is the first instant showing its reading exactly when the offset at that instant is one of the two probed |
| Timezone.ResolvesFirstShowing | backend/internal/scheduling/timezone.go:81-107 | With at most two offsets around it, however often they change, a reading is shown by its resolution exactly when it is shown at all, and never earlier |
| Timezone.GapShiftsForward | backend/internal/scheduling/timezone.go:81-111 | A reading that two offsets never show is shifted by exactly the change between them, and forward when there is one change |
| Calendar.GoverningRecordsAgree | backend/internal/scheduling/schedule_service.go:490-500 | The start command's search over records and the calendar's selection over revisions find the same record |
| Calendar.OccurrenceRecordInWindow | backend/internal/scheduling/calendar_service.go:374-381 | The calendar's point test for an exception row agrees with the window generator |
| Calendar.MarginSuffices | backend/internal/scheduling/calendar_service.go:72-78 | Any occurrence, moved or not, whose interval meets the month has its effective date inside the fetched range, for every zone and every legal duration |
| Calendar.MarginIsTight | backend/internal/scheduling/calendar_service.go:74-78 | Both outermost dates of that range are reached, so it cannot be narrowed |
| CalendarMonth.GenerationPass | backend/internal/scheduling/calendar_service.go:145-173 | After generation the map holds exactly the generated occurrences meeting the month, and the stop candidates exactly those on stopped dates |
| CalendarMonth.ExceptionPass | backend/internal/scheduling/calendar_service.go:174-285 | After the exception rows every key is settled: deleting the stop candidates leaves what its own resolution says |
| CalendarMonth.Month | backend/internal/scheduling/calendar_service.go:52-285 | The multi-pass build holds exactly the items whose individually resolved interval meets the month, with that interval, and nothing else |
| CalendarRows.MonthShowsSessions | backend/internal/scheduling/calendar_service.go:105-121 | A session row is in the month exactly when its interval meets it, with the row's interval, circle and title: cancelled if the row is, else scheduled, active or completed as it is planned, live or ended |
| CalendarRows.MonthShowsOccurrences | backend/internal/scheduling/calendar_service.go:145-285 | An original date is in the month exactly when the ruling record generates it, its series is not stopped on or before the date it is held and its interval meets the month; with the record's fields but for what its exception row replaces, and cancelled exactly if the row says so |
| CalendarRows.MonthShowsNothingElse | backend/internal/scheduling/calendar_service.go:52-285 | Every key of the month is a session row's or a date ruled by a record of a schedule |
| CalendarRows.StartVerdict | backend/internal/scheduling/occurrence_start_service.go:122-188 | An occurrence starts exactly when the ruling record generates it, its row does not cancel it and its series runs on the date it is held; the plan is the record's with what the row replaces |
| CalendarRows.UnruledCannotStart | backend/internal/scheduling/occurrence_start_service.go:129-132 | A date no record rules cannot be started |
| CalendarRows.SessionCounts | backend/internal/scheduling/overlap_service.go:145-154 | A session is compared with a plan exactly while it is planned or live, not cancelled and not excluded |
| CalendarRows.OccurrenceCounts | backend/internal/scheduling/overlap_service.go:145-154 | An occurrence is compared exactly when the start command would accept it and it is not excluded |
| CalendarMonth.CalendarAgreesWithStart | backend/internal/scheduling/occurrence_start_service.go:122-188 | For every original date: shown as scheduled exactly when the start command accepts it and its interval meets the month, with the start command's interval; any other shown occurrence is cancelled and would start but for the cancellation |
| CalendarMonth.VisibleWithinMargin | backend/internal/scheduling/calendar_queries.go:22-29 | An occurrence shown in the month has its effective date in the exception query's range, so no row that matters is missed |
| CalendarMonth.TitlesAgreeExactly | backend/internal/scheduling/calendar_service.go:232-259 | Calendar and start command give the same title exactly unless a row replaces the title and neither date nor clock |
| CalendarMonth.TitleOnlyRowDiffers | backend/internal/scheduling/occurrence_start_service.go:180-182 | A concrete title-only row on which the two differ |
| Overlap.EvaluateOverlapWarnings | backend/internal/scheduling/overlap_service.go:206-240 | The nested loops return, ordered by id, exactly one warning for each conflicting pair of different keys and nothing else |
| Overlap.ConflictSharesAnInstant | backend/internal/scheduling/overlap_service.go:211-213 | Two intervals conflict exactly when their keys differ and they share an instant |
| Overlap.WarnsOfTheIntersection | backend/internal/scheduling/overlap_service.go:211-236 | A warning carries the true, non-empty intersection of its two intervals |
| Overlap.StringOrderIsLexical | backend/internal/scheduling/overlap_service.go:219 | Keys are ordered as texts: a beginning first, then by the first differing character |
| Overlap.SwappingListsChangesNothing | backend/internal/scheduling/overlap_service.go:215-226 | Swapping the two lists gives the same warnings in the same order |
| Overlap.OneWarningPerPair | backend/internal/scheduling/calendar_service.go:324-327 | A list of distinct keys compared with itself gives a warning for each conflicting unordered pair and for no other |
| Overlap.PairsDoNotShareWarnings | backend/internal/scheduling/calendar_service.go:324-327 | Two different pairs never share a warning |
| OverlapCheck.KeyTextIsInjective | backend/internal/scheduling/calendar_service.go:350-352 | Written keys of different occurrences, sessions and previews differ |
| OverlapCheck.ExcludingAnId | backend/internal/scheduling/overlap_service.go:108-119 | Excluding an id drops exactly that session or that schedule's occurrences |
| OverlapCheck.ExcludingAnOccurrence | backend/internal/scheduling/overlap_service.go:108-119 | Excluding an occurrence key drops that occurrence alone |
| OverlapCheck.PreviewWindow | backend/internal/scheduling/overlap_service.go:175-204 | The previewed intervals are, one for each, those of the days a rule keeps up to thirty days after the later of its anchor and its effective date, or of all the days it selects, each with its resolved interval |
| OverlapCheck.PreviewDaysAre | backend/internal/scheduling/overlap_service.go:183-190 | The previewed days are exactly those days |
| OverlapPlan.LastPreviewIsTheYear9999 | backend/internal/scheduling/overlap_service.go:188-190 | The last day a selected-dates preview looks at is the last of the year 9999 |
| ViewerMonths.YearStarts | backend/internal/scheduling/calendar_service.go:72-73 | The months make years of 365 days, and of 366 by the Gregorian rule |
| ViewerMonths.CoversExactly | backend/internal/scheduling/overlap_service.go:84-91 | Where the first midnights concerned are readings of the viewer's clock, the walk from month to month leaves no instant of an interval out exactly when the interval does not start before its own month's edge |
| ViewerMonths.WindowsTile | backend/internal/scheduling/calendar_service.go:72-73 | In a zone that shows every first midnight each instant lies in exactly one calendar month as it is fetched |
| ViewerMonths.SkippedMidnightLosesTheMonth | backend/internal/scheduling/overlap_service.go:87-90 | A concrete zone that skips a first midnight, and an interval whose month is never fetched |
| OverlapCheck.ConflictsAreFetched | backend/internal/scheduling/overlap_service.go:84-104 | Fetching an interval's months loses no conflict, whatever it is, exactly when their windows cover the interval |
| OverlapCheck.TouchedMonths | backend/internal/scheduling/overlap_service.go:84-91 | The month loop, stepping by the library's dates in any zone, ends and collects exactly the months named on the way of some proposed interval |
| OverlapCheck.Warnings | backend/internal/scheduling/overlap_service.go:84-106 | The warnings are exactly those of the eligible, not excluded items the fetched months show; where these months cover the proposal, exactly those of all pairs over everything visible in any month |
| OverlapCheck.RequireOverlapConfirmation | backend/internal/scheduling/overlap_service.go:121-138 | Accepted exactly when there is no warning, or it was confirmed and every warning's id was reviewed |
| OverlapCheck.Check | backend/internal/scheduling/overlap_service.go:35-44 | A check succeeds exactly when every conflict fetched was confirmed with its id reviewed; where the months cover the proposal, that is every conflict there is |
| OverlapCheck.CalendarWarnings | backend/internal/scheduling/calendar_service.go:324-327 | The month's own warnings are, in order of id, one for every two different live items of the built month that overlap, and no others |
| OverlapCheck.CalendarWarningsTellPairsApart | backend/internal/scheduling/calendar_service.go:324-327 | Different pairs of items of a month have different warnings |
| OverlapPlan.DefaultsFill | backend/internal/scheduling/overlap_service.go:47-52 | A missing version becomes the first, a missing effective date the anchor, and nothing else of the plan changes |
| OverlapPlan.ValidateNewPlan | backend/internal/scheduling/schedule_service.go:431-462 | A plan passes exactly when its dates, rule, clocks, zone name and title are in order and no start still in force is past; each error is returned exactly when its rule is the first one broken |
| OverlapPlan.ValidatePlannedClocks | backend/internal/scheduling/timezone.go:68-79 | Clocks pass exactly when both exist, the duration is legal and the end clock is start plus duration; each failure is the first that applies |
| OverlapPlan.LegalTitles | backend/internal/scheduling/schedule_service.go:424-429 | A legal title is left out, or trimmed at both ends and at most 200 characters long |
| OverlapPlan.CheckPlan | backend/internal/scheduling/overlap_service.go:35-106 | From plan to acceptance: a plan is refused with the first rule it breaks; any other is held back only for a real conflict not reviewed; and where the fetched months cover it, it is accepted without confirmation exactly when no date it previews conflicts with any visible commitment in any month, and with one exactly when every such conflict's id was reviewed |
| OverlapPlan.PlanCoveredExactly | backend/internal/scheduling/overlap_service.go:84-91 | In a zone that shows every first midnight the fetched months cover a plan exactly when no previewed start precedes the edge of its month |
| Reminders.ReminderRevision | backend/internal/scheduling/reminder_eligibility.go:53-66 | The filtered search returns the record generating the date when it has the asked version, and none otherwise |
| Reminders.PointTestIsTheWindow | backend/internal/scheduling/reminder_eligibility.go:53-66 | The reminder's point test accepts an occurrence exactly when every window around its date contains it |
| Reminders.PositiveKeeps | backend/internal/scheduling/reminder_eligibility.go:36-39 | The offsets reminded of are the positive ones, in order and as often as given |
| Reminders.EligibleReminders | backend/internal/scheduling/reminder_eligibility.go:18-51 | One reminder for each positive offset, in order, exactly that offset before the resolved start; none for a cancelled, foreign or superseded occurrence; an error exactly for a current one whose zone name, clock or duration is bad, the first of them |
| QueueModel.NextWaiting | backend/internal/queue/queue_queries.go:236-244 | The waiting, unselected entry of lowest position, if there is one |
| QueueModel.LowestPrepared | backend/internal/queue/queue_queries.go:125-131 | The prepared round of lowest number, if there is one |
| QueueSteps.TurnSteps | backend/internal/queue/turn_service.go:119-128 | Any allowed change of one entry, with its round's next version and one event, keeps the whole invariant and moves the state forward |
| QueueSteps.ApplySteps | backend/internal/queue/round_service.go:44-426 | Every command that commits keeps the whole queue invariant and only moves the state forward |
| QueueSteps.PositionsAreOneToCount | backend/internal/queue/queue_queries.go:541-543 | Positions that are distinct and gap-free below each other are exactly 1..n for n entries, and the greatest is n |
| QueueSteps.InsertsAll | backend/internal/queue/round_service.go:140-144 | The insertion loop of an activation succeeds exactly when its list repeats no student, and then seats all of them in order |
| QueueRuns.Run | backend/internal/queue/queue_repository.go:46-63 | Over every sequence of commands, failed ones included, the invariant holds and the final state evolves from the first |
| QueueRuns.EveryLogIsGapFree | backend/internal/queue/round_service.go:145-153 | In every reachable state the versions 2..current of each round are carried by exactly one announcing event each, in increasing order, and no other version is |
| QueueRuns.VersionsStandForContent | backend/internal/queue/queue_queries.go:193-280 | Between any state of a run and every later one a round's or entry's version is unchanged exactly when its content is |
| QueueRuns.RoundVersionGuards | backend/internal/queue/round_service.go:195-206 | A command guarded by a round version read earlier succeeds only if the round and all its entries are as they were read |
| QueueRuns.EntryVersionGuards | backend/internal/queue/turn_service.go:110-121 | A command guarded by an entry version read earlier succeeds only on the unchanged entry |
| QueueRuns.AdvanceActsOnWhatWasRead | backend/internal/queue/turn_service.go:47-69 | An advance with a version read before any run selects what it would have selected then |
| QueueRuns.RoundNumbersAreOneToCount | backend/internal/queue/queue_queries.go:177-178 | A session's round numbers are exactly 1..n for its n rounds, in creation order |
| QueueRuns.PositionsAlwaysOneToCount | backend/internal/queue/round_service.go:309-316 | In every reachable state a round's positions are exactly 1..n for its n entries |
| QueueRuns.SelectionIsTheOneReciter | backend/internal/queue/turn_service.go:44-69 | A selection exists only in an active round and names one of its waiting or reciting entries; its reciting entry is the selection; no round has two |
| QueueRuns.ProgressMirrorsCompletion | backend/internal/queue/turn_service.go:182-214 | An entry is completed exactly when it has a progress row, which equals it in grade and note and its round in range and kind; grading-required completions carry a grade |
| QueueRuns.CorrectLeavesUnmarked | backend/internal/queue/turn_service.go:306-320 | After a correction the grade is absent exactly when it was and none was given; the note exactly when it was cleared, or absent and none given |
| QueueRuns.PopulationIsThePool | backend/internal/queue/queue_queries.go:328-366 | The activation order lists everyone in the policy's pool exactly once |
| QueueRuns.ActivationSucceeds | backend/internal/queue/round_service.go:123-155 | With distinct members no activation fails |
| QueueRuns.ResetLeavesOneActive | backend/internal/queue/round_service.go:360-426 | Every successful reset, in one transaction or in two, leaves exactly one active round |
| QueueRuns.ResetCanComplete | backend/internal/queue/round_service.go:404-420 | Whatever runs between its two transactions, a reset of a live session can be completed |
| QueueRuns.ActivationOrderIncreases | backend/internal/queue/round_service.go:123-136 | A round activated after any state has a higher number than every round ever activated in it |
| QueueRuns.FinalizedIsTerminal | backend/internal/queue/queue_queries.go:217-224 | Over every run a finalized round keeps its row but for the version, gains no entry, and keeps its entries but for grade, note and version |
| QueueRuns.ClosedForever | backend/internal/queue/round_service.go:57-59 | An ended session with only finalized rounds never has another kind again |
| QueueReposition.MoveReinserts | backend/internal/queue/queue_repository.go:405-443 | Repositioning leaves exactly the list with the entry taken out and put back at its new slot |
| QueueReposition.StageRow | backend/internal/queue/queue_queries.go:312-313 | Staging a row is blocked exactly by a later row a million positions up; otherwise positions stay distinct and positive |
| QueueReposition.WriteAdvances | backend/internal/queue/queue_repository.go:428-441 | Each write of the second pass keeps positions distinct and positive, and is blocked exactly when the moved entry rises by more than the offset |
| QueueReposition.SmallRoundsMoveFreely | backend/internal/queue/queue_repository.go:405-410 | With at most a million entries neither pass can be blocked |
| QueueStore.Store.RepositionEntry | backend/internal/queue/queue_repository.go:407-443 | The staging and rewriting loops end in the moved positions, or report exactly the constraint or range error |
| QueueStore.Store.Prepare | backend/internal/queue/round_service.go:44-91 | The numbered round, its preorder and, in a live session, the activation it triggers are committed together; an invalid preorder or a clash undoes all of them |
| QueueStore.Store.ActivateLowestRound | backend/internal/queue/round_service.go:123-155 | Nothing while a round is active; else the lowest prepared round is seated in population order and announced, or the error of the first clash is reported |
| QueueStore.Store.Reorder | backend/internal/queue/round_service.go:179-212 | The complete candidate order of a prepared round is replaced and announced at the expected version; every refusal names its error and changes nothing |
| QueueStore.Store.Move | backend/internal/queue/round_service.go:215-264 | A waiting entry of an active round moves with everything between shifted, or the range or constraint error leaves every position as it was |
| QueueStore.Store.AppendLateJoiner | backend/internal/queue/round_service.go:271-330 | An eligible newcomer is seated last and announced, anyone else is ignored; the insert never clashes |
| QueueStore.Store.FinalizeActiveRound | backend/internal/queue/round_service.go:334-356 | The active round, if any, is finalized under the session's policy and announced once |
| QueueStore.Store.Reset | backend/internal/queue/round_service.go:360-426 | Both halves in one enclosing transaction: finalized, succeeded and activated, or every table as it was |
| QueueStore.Store.ResetClose | backend/internal/queue/round_service.go:366-403 | The first transaction alone: finalized and succeeded with the lock held, or every table as it was |
| QueueStore.Store.ResetOpen | backend/internal/queue/round_service.go:404-420 | The second transaction with its deferred unlock: activated, or the error with every table as it was; either way the lock is released |
| QueueStore.Store.Advance | backend/internal/queue/turn_service.go:27-75 | With nobody reciting, the lowest waiting entry not yet selected becomes the selection at the expected version; each refusal names its error |
| QueueStore.Store.Start | backend/internal/queue/turn_service.go:81-134 | Only the selected waiting entry at its expected version starts to recite, in one step with its round's version and event |
| QueueStore.Store.Complete | backend/internal/queue/turn_service.go:139-242 | Entry, progress row, selection, round version and event change together, with a grade exactly as the round asks, or nothing does |
| QueueStore.Store.Correct | backend/internal/queue/turn_service.go:249-347 | Under the session's correction policy entry and progress row take the same new marks; an absent note keeps, an empty note clears |
| QueueStore.Store.Skip | backend/internal/queue/turn_service.go:352-406 | A waiting or reciting entry is skipped and loses the selection if it had it, in one step |
| QueueStore.Store.RequestOptOut | backend/internal/queue/optout_service.go:60-195 | A settled request is answered unchanged; otherwise one pending request is recorded, or the entry opts out at once, as the policy says |
| QueueStore.Store.Decide | backend/internal/queue/optout_service.go:212-293 | Request, entry, selection, version and event change together on approval, the request alone on refusal; a failed transition undoes the decision |
| QueueStore.Store.UpdatePolicy | backend/internal/queue/queue_repository.go:869-908 | An effective change takes the next policy version and, with an active round in a live session, one event; equal values change nothing |
| QueueStore.OutcomeIsStep | backend/internal/queue/queue_repository.go:46-63 | What a stepwise command did is one step of a run, so every theorem about runs holds of the tables |
| QueueConvergence.Driver.FinalizeRounds | backend/internal/queue/convergence.go:111-126 | Every listed round is finalized or returned as remaining, whatever else commits in between; unless a reset holds the lock, exactly those remain whose own step faulted |
| QueueConvergence.Driver.FinalizeSession | backend/internal/queue/convergence.go:59-87 | For an ended session, success means no active or prepared round is left; failure means a fault or a reset's lock, and comes only from a failed listing or after the last retry |
| QueueConvergence.UnfinalizedOnlyFalls | backend/internal/queue/convergence.go:59-87 | For an ended session no run raises the number of unfinalized rounds and finalizing any of them lowers it |
| QueueOutbox.NothingStrands | backend/internal/queue/queue_queries.go:407-459 | After any claims, failures, crashes and replays an undelivered row is parked or claimable within thirty seconds, and a replay can then deliver it |
| QueueOutbox.SixProjectionsSettle | backend/internal/queue/outbox.go:97-144 | With one dispatcher that may replay, and neither crashes nor meets a store error, a row is projected at most six times, and once more for each replay of it while parked; the last of these delivers or parks it, and none before parks it |
| QueueOutbox.Store.ClaimDue | backend/internal/queue/queue_queries.go:407-420 | A claim leases at most limit due rows, none of them behind an unclaimed due row, and stops short only when no due row is left |
| QueueOutbox.ClaimLeases | backend/internal/queue/queue_queries.go:407-440 | A claim leases a due, undelivered and unparked row for thirty seconds and counts nothing; a replay takes parked rows too, due or not |
| QueueOutbox.Store.Dispatch | backend/internal/queue/outbox.go:113-144 | An open row is delivered when projected, tried again after its backoff with the attempt counted, or parked after five attempts; no other row changes, and the copy is gone |
| QueueOutbox.BackoffDoubles | backend/internal/queue/outbox.go:65-76 | The backoff is one second doubled for every attempt before, at most a tenth more or less, both reached |
| ChatOutbox.AttemptsAreBounded | backend/internal/chat/queries.go:314-331 | Under any interleaving attempts stay within five, a parked row has exactly five and is undelivered, and at most one copy in flight holds the fifth |
| ChatOutbox.StepKeepsValid | backend/internal/chat/outbox_queries.go:15-54 | Every claim, replay, landing and loss keeps the row constraints and the fifth-copy invariant |
| ChatOutbox.DeliveredIsFinal | backend/internal/chat/outbox_queries.go:35-54 | A delivered row never changes again and is never claimed again |
| ChatOutbox.DeliverableUnlessStranded | backend/internal/chat/outbox_queries.go:15-38 | A row can still be delivered exactly unless it is undelivered, unparked, at five attempts and in nobody's hands |
| ChatOutbox.LostFifthClaimStrands | backend/internal/chat/queries.go:318-321 | Losing the copy of the fifth claim strands the row over every later run |
| ChatOutbox.BackoffGrows | backend/internal/chat/outbox.go:203-231 | With the default jitter each retry waits longer than the one before and below the cap, whatever is drawn |
| ChatOutbox.Store.ClaimDue | backend/internal/chat/queries.go:314-331 | A batch of claims is a run of single claims, each of the row first by availability and key when its turn came, at most limit, stopping short only when nothing is claimable |
| ChatOutbox.ClaimLeases | backend/internal/chat/queries.go:314-331 | A claim leases a due open row with attempts left for thirty seconds and counts the attempt; a replay takes parked rows too and gives them a fresh budget |
| ChatOutbox.Store.Dispatch | backend/internal/chat/outbox.go:125-173 | An open row is delivered exactly when its message was projected, cannot be shown or was deleted since; after a failed load no row changes; after a failed projection it waits out the retry delay, or is parked at the fifth attempt; no other row changes, and the copy is gone |
| QueueStore.Store.ActivateIfNeeded | backend/internal/queue/round_service.go:158-176 | Restores one active round in a live session; does nothing before it starts and refuses after it ends |
| QueueStore.Store.ConvergeRound | backend/internal/queue/convergence.go:128-150 | A round not yet finalized is finalized and announced without attribution; a finalized one is left alone |
| QueueStore.Store.SkipUnfinishedEntries | backend/internal/queue/queue_queries.go:229-232 | Exactly the waiting and reciting rows of the round are skipped, attributed and bumped |
| QueueStore.Store.ReplacePreorder | backend/internal/queue/queue_repository.go:346-359 | An eligible list replaces the whole preorder, in order |
| QueueStore.Store.StagePositions | backend/internal/queue/queue_queries.go:312-313 | The staging update raises every position of the round, or fails exactly when a later row is in the way |
| QueueStore.Store.RewritePositions | backend/internal/queue/queue_repository.go:428-441 | The rewriting loop, with positions distinct and positive after every write, ends in the moved positions or in the one possible clash |
| QueueRetries.ActivateTwice | backend/internal/queue/round_service.go:157-176 | Restoring the activation invariant again changes nothing |
| QueueRetries.JoinTwice | backend/internal/queue/round_service.go:266-295 | Duplicate join facts converge to a single entry |
| QueueRetries.FinalizeTwice | backend/internal/queue/round_service.go:332-347 | Finalizing again finds nothing to finalize |
| QueueRetries.RequestTwice | backend/internal/queue/optout_service.go:60-77 | Repeating a student's request leaves every table as the first one left it |
| QueueMarks.OnlyCorrectionsMark | backend/internal/queue/turn_service.go:185-193 | Over every run without corrections no entry of a grading-optional round carries a grade or a note |
| QueueSteps.ResetCloseSteps | backend/internal/queue/round_service.go:366-403 | The first half of a reset keeps the invariant and leaves the session locked on its successor, the new round, prepared; the invariant holds it so until the lock is gone |
| QueueConvergence.ConvergeOutcome | backend/internal/queue/convergence.go:128-150 | A finalization transaction is stopped only by a reset's lock; committed, it leaves its round finalized |
| QueueConvergence.ClosedIsZero | backend/internal/queue/queue_queries.go:614-618 | The measure is zero exactly when nothing is left to finalize |
| QueueOutbox.RunWaitsOneLease | backend/internal/queue/queue_queries.go:416-417 | No lease and no backoff ever puts a row more than thirty seconds ahead |
| QueueOutbox.BackoffWithinLease | backend/internal/queue/outbox.go:65-76 | Every jittered backoff of a counted attempt is positive and shorter than a lease |
| ChatOutbox.RetryDelay | backend/internal/chat/outbox.go:203-218 | Whatever the jitter does, even with the product of an overflowing attempt, a delay lies between zero and the cap |
| ChatOutbox.StrandedStays | backend/internal/chat/outbox_queries.go:15-38 | No action of anyone reaches a stranded row again |
| ChatOutbox.StrandedIsReached | backend/internal/chat/queries.go:318-321 | From the empty table a run of claims and crashes strands a row |
| QueueSealed.FinalizedOnlyCorrected | backend/internal/queue/turn_service.go:293-304 | Over every run a finalized round and all its entries are exactly as they were if and only if no correction of one of its entries committed; nothing else touches even a version |
| QueueSealed.SealedStep | backend/internal/queue/round_service.go:277-279 | No single command but a committing correction of its own entries changes a finalized round's row or entries |
| QueueVerdicts.SessionVerdict | backend/internal/queue/round_service.go:57-59 | A session is created planned, starts only from planned and ends only from live |
| QueueVerdicts.PrepareVerdict | backend/internal/queue/round_service.go:44-121 | A preparation commits exactly with a good range, distinct student members and an unlocked session that has not ended; each error names the first rule broken |
| QueueVerdicts.ActivateIfNeededVerdict | backend/internal/queue/round_service.go:158-176 | Restoring commits exactly in an unlocked session that has not ended; each error is exact |
| QueueVerdicts.ReorderVerdict | backend/internal/queue/round_service.go:179-209 | A reordering commits exactly for a prepared round at the expected version with distinct student members; each error is exact |
| QueueVerdicts.MoveVerdict | backend/internal/queue/round_service.go:215-261 | A move commits exactly for a waiting entry of an active round at the expected version to one of its slots, with no two rows a million positions apart in the wrong order and no rise past a million; each error is exact |
| QueueVerdicts.FinalizeVerdict | backend/internal/queue/round_service.go:334-356 | Finalizing the active round commits exactly in an unlocked session that exists |
| QueueVerdicts.ConvergeVerdict | backend/internal/queue/convergence.go:128-150 | A convergence step commits exactly for a round whose session no reset holds |
| QueueVerdicts.ResetCloseVerdict | backend/internal/queue/round_service.go:360-403 | The first half of a reset commits exactly with good input, in an unlocked live session with an active round; each error is exact |
| QueueVerdicts.ResetVerdict | backend/internal/queue/round_service.go:360-426 | An enclosed reset commits exactly when its first half would, and fails with the same error |
| QueueVerdicts.ResetOpenVerdict | backend/internal/queue/round_service.go:404-420 | The second half commits exactly while the lock is held and the session live; each error is exact |
| QueueVerdicts.AdvanceVerdict | backend/internal/queue/turn_service.go:27-64 | An advance commits exactly for an active round at the expected version in which nobody recites and someone other than the selected waits; each error is exact |
| QueueVerdicts.StartVerdict | backend/internal/queue/turn_service.go:81-119 | A start commits exactly for the selected waiting entry at its version in an active round; each error is exact |
| QueueVerdicts.CompleteVerdict | backend/internal/queue/turn_service.go:139-193 | A completion commits exactly for a reciting entry at its version in an active round, with a grade if the round asks for one and without marks if not; each error is exact |
| QueueVerdicts.CorrectVerdict | backend/internal/queue/turn_service.go:249-304 | A correction commits exactly for a completed entry at its version with a note of legal length, under a policy that allows it any time, or until its round is finalized; each error is exact |
| QueueVerdicts.SkipVerdict | backend/internal/queue/turn_service.go:352-383 | A skip commits exactly for a waiting or reciting entry at its version in an active round; each error is exact |
| QueueVerdicts.RequestNeedsAnEntry | backend/internal/queue/optout_service.go:60-66 | A request is not found exactly when the student has no entry in an active round of the session |
| QueueVerdicts.RequestVerdict | backend/internal/queue/optout_service.go:67-87 | A settled request is answered as it is; any other commits exactly for an unfinished entry in a live session; each error is exact |
| QueueVerdicts.DecideVerdict | backend/internal/queue/optout_service.go:212-250 | A decision commits exactly on a pending request of the addressed session at the entry's version, the round not finalized, and an approval only on an unfinished entry; each error is exact |
| QueueVerdicts.UpdatePolicyVerdict | backend/internal/queue/queue_repository.go:869-890 | A policy change commits exactly for a manager, at the policy's version, before the session ends; each error is exact |
| QueueVerdicts.EligibleMeansMembers | backend/internal/queue/queue_repository.go:362-382 | Counting the members named tells whether everyone listed is a student member |
| QueueCorrections.CompletedIsFinal | backend/internal/queue/turn_service.go:293-304 | Over every run whose policies never let a correction of it through, being immutable or ended with its round, a completed entry keeps everything but its place |
| QueueCorrections.OnlyItsCorrectionsTouch | backend/internal/queue/turn_service.go:293-341 | Over every run nothing but a correction of the entry itself touches a completed entry, but for its place |
| QueueEffects.StartEffect | backend/internal/queue/turn_service.go:107-128 | The selected waiting entry becomes the only one reciting in its round; nothing else changes but the round's version, which one event carries |
| QueueEffects.CompleteEffect | backend/internal/queue/turn_service.go:176-236 | The one reciting entry completes with the marks given, a grade exactly if the round asks for one; it gains the one progress row, the selection is cleared and nobody recites |
| QueueEffects.CorrectEffect | backend/internal/queue/turn_service.go:306-341 | Grade and note change on the entry and its one progress row alike, an absent one staying and an empty note clearing it; statuses, positions, selection and other rows stay; one event carries the round's next version |
| QueueEffects.SkipEffect | backend/internal/queue/turn_service.go:384-400 | An unfinished entry is skipped with its attribution, and the selection is dropped exactly if it was this entry |
| QueueEffects.AdvanceEffect | backend/internal/queue/turn_service.go:50-69 | With nobody reciting, the first waiting entry other than the selected one is selected; no entry changes |
| QueueEffects.RequestEffect | backend/internal/queue/optout_service.go:60-195 | Only the student's own unfinished entry of the active round can change, only to opted out and only under auto-approval; at most one request is added |
| QueueEffects.RequestCases | backend/internal/queue/optout_service.go:60-195 | By case: the request is answered unchanged, one pending request is filed with its event, or the entry opts out at once, attributed to the student, with an approved request if it had none |
| QueueEffects.DecideEffect | backend/internal/queue/optout_service.go:237-287 | A pending request takes the decision; its unfinished entry opts out and loses the selection exactly on approval, and on refusal nothing but the request changes |
| QueueEffects.ReorderEffect | backend/internal/queue/round_service.go:192-209 | A prepared round takes the new preorder and its next version; no other field, round or entry changes |
| QueueEffects.MoveEffect | backend/internal/queue/round_service.go:240-261 | The waiting entry stands where asked, all others keep their order among themselves, and only positions and versions of its round change |
| QueueEffects.JoinEffect | backend/internal/queue/round_service.go:271-328 | A student member without an entry, who under the all-students policy joined after the activation, is seated waiting behind all entries of the live session's active round; for anyone else nothing changes |
| QueueEffects.PolicyEffect | backend/internal/queue/queue_repository.go:869-908 | Only the session's policy changes, its version by one exactly on an effective change, with one event exactly then in a live session with an active round; no round announces a version |
| QueueOpenings.PrepareEffect | backend/internal/queue/round_service.go:60-86 | A preparation adds one prepared round, as asked, with the number after the session's highest; in a planned session nothing else changes, in a live one the one active round is restored from the rounds with the new one among them |
| QueueOpenings.PrepareLeavesOneActive | backend/internal/queue/round_service.go:75-81 | After a preparation in a live session exactly one of its rounds is active |
| QueueOpenings.ActivateIfNeededEffect | backend/internal/queue/round_service.go:123-176 | In a live session with no active round the lowest-numbered prepared one opens with its population seated waiting at 1, 2, ..., and one event; in any other case nothing changes |
| QueueOpenings.PopulationIsInOrder | backend/internal/queue/queue_queries.go:326-370 | The population is everyone of the pool its policy names once: the pre-ordered in their order, then the others in the pool's |
| QueueOpenings.FinalizeActiveEffect | backend/internal/queue/round_service.go:334-356 | The active round is finalized without selection, its waiting and reciting entries skipped exactly if the policy marks them; without one nothing changes |
| QueueOpenings.ConvergeEffect | backend/internal/queue/convergence.go:128-150 | A round not finalized is finalized the same way without attribution; a finalized one stays |
| QueueOpenings.ResetCloseEffect | backend/internal/queue/round_service.go:366-403 | The active round is finalized, its successor added and the session locked on it, and nothing else |
| QueueOpenings.ResetOpenEffect | backend/internal/queue/round_service.go:404-420 | The lock is given up and the one active round restored |
| QueueOpenings.ResetEffect | backend/internal/queue/round_service.go:360-426 | An enclosed reset finalizes, adds and restores, in this order, and leaves the locks alone |
| QueueStore.FailedResetReleases | backend/internal/queue/queue_repository.go:80-83 | A failed second half with its unlock is one failed command and one release of a run, and leaves no lock behind |
| ChatOutbox.DelayDoublesToCap | backend/internal/chat/outbox.go:203-218 | Undisturbed, the delay is one second doubled with every attempt and clamped to thirty, for every attempt whose product fits 64 bits |

## Left out

- Transport, handlers, authorization of commands, audit, metrics and logging, realtime payloads, display names, grade visibility.
- PostgreSQL's isolation levels, row locks and deadlocks; each statement's row effect and guard is taken as given.
- Idempotency receipts; the enclosing transaction they run in is modelled, their replay is not.
- Timestamps that no branch reads (created, started, completed, finalized, updated), the creator of a round, circle and surah names on progress rows.
- Parsing of stored clocks and the errors it can raise; which zone names load is a parameter. In the month build stored clocks, durations and zone names are valid.
- Timezone.FirstShowingIsProbed: covers zones whose offsets within 26 hours of the reading are whole minutes and change on whole minutes; for others only the bound of `Timezone.StartsWithinADay` is stated.
- Timezone.ResolvesFirstShowing: covers whole minutes and two offsets within 26 hours of the reading; with a third offset `Timezone.FirstShowingIsProbed` says exactly when it still holds.
- Timezone.GapShiftsForward: covers whole minutes and two offsets within 26 hours of the reading, like the above.
- ViewerMonths.CoversExactly: where a first midnight is skipped the covered intervals are not characterised, since the date library does not say what it then returns.
- The month's overlay of materialized sessions and the final sort of its items; creating and changing schedules and exceptions; attendance.
- The refusal of months outside the years 1 to 9999.
- Written dates and times are injective texts; ids contain no colon, and only the prefix rules of exclusion read a text.
- Chat message loading, uploads and moderation; the dispatchers' tickers and startup replay loop; the order among parked rows of a replay batch.
- Convergence's discovery of ended sessions at startup; time is a number of retries, and a fault is any failure of one step.
- Fairness of repeated advances.
- QueueConvergence.Driver.FinalizeRounds: its list comes from a table without deletions, so the missing-row branch is kept but never taken.
- QueueStore.Store.Complete: the request's grade is one of the five grades by type, so their validation is not modelled.
- QueueStore.Store.UpdatePolicy: policy values are legal by type, so their validation is not modelled.
- QueueOutbox.Store.ClaimDue: which rows a claim takes is stated, the order in which they are returned is not.
- ChatOutbox.Store.ClaimDue: rows locked by another claim are not skipped, since claims are atomic steps.
