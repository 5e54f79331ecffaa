# Verification models of the telephony backend

These Dafny modules model the parts of the backend that hold logic over state and prove what
they promise, over every input and every run. `dafny verify dfyconfig.toml` checks everything.

| file | models |
|---|---|
| `CareersModel.dfy`, `PublicJobs.dfy` | the requisition row, its public projection, and the list, detail and filter views |
| `CareersService.dfy`, `CareersEffects.dfy` | staff writes, the cached read, lifecycle, the status trail; operations are atomic; what each write changes and records, field by field |
| `CareersInterleaved.dfy` | the same reads and writes split into steps, with a clock, expiry and failing cache calls |
| `CareersRace.dfy` | status transitions with their check and their write apart, and when the lifecycle survives that |
| `ApiKeys.dfy` | the key table, the bound, revocation, and the cached list that one writer does not purge |
| `CanonicalState.dfy`, `JsonValues.dfy`, `AuditTrail.dfy`, `RecordedStates.dfy` | canonical JSON hashing, account attribution, the append-only log and its view, and the writer on actual recorded states |
| `UuidReaders.dfy` | the two readings of UUID text, Python's and the database's, character by character |
| `AuditBackfill.dfy` | the four UPDATE passes of the backfill, and when they agree with the attribution at write time |
| `Rounding.dfy`, `Analytics.dfy`, `LoadTest.dfy` | half-even rounding, the daily overview, interpolated percentiles and the load report |
| `Entitlements.dfy`, `EntitlementRegister.dfy`, `EntitlementSeeds.dfy` | the register migration and its downgrade, for every well-formed register, the actual register, and the rows that two earlier migrations had seeded |
| `Seqs.dfy` | filters, maps, stable sorting, counting by key and text order, shared by the rest |

How to read the models. Code that changes state is a class or an array method proved against a
function of the old state (`AfterUpdate`, `Upgraded`, `Backfilled`, ...); runs, invariants and
round trips are then proved about those functions. A table is a sequence in insertion order, and
`ORDER BY` ties are resolved by that order. `str.lower`, the SHA-256 digest and fresh ids are
parameters, and a lemma that needs an injective digest says so in its `requires`. The hashing and
attribution results hold for every rendering of values and every pair of UUID readers that meet
stated laws; `JsonValues` and `UuidReaders` give the actual ones and prove the laws. Instants are
integers (seconds, in analytics microseconds) and minutes, latencies and percentiles are exact
reals.

## Where the code and its documentation disagree

- `update_requisition` is documented as touching only the keys passed, but the route passes every
  key (`backend/app/careers/routes.py:113`), so the geography check reads `None` instead of the
  stored value. `RouteBreaksRemoteRule` gives exactly the requests that leave a REMOTE role with
  blank locations, `RouteCannotInferLocations` exactly those on which it crashes with `None.strip()`, and
  `RunKeepsRemoteRule` exactly the runs that keep the rule in all their states.
- `log_event` is documented as never raising; attribution and the hashing of both states run outside
  its `try`. `WriterRaisesExactly` says when it raises. `UrnActorMakesLoggingRaise` gives, for every
  id, an actor with which it does, as Python reads UUIDs with a URN prefix and the database does
  not; `MixedKeysMakeLoggingRaise` gives the states whose keys cannot be sorted.
- The lifecycle table is documented as the only way to move a requisition, but nothing ties the
  write to the status that was checked. `LifecycleSurvivesExactly` says which interleavings keep to
  the table, and `FilledCanBePublicAgain` gives one that does not.
- The backfill says it applies the exact same heuristic as the writer; it does so exactly for the
  rows described by `BackfillMatchesExactlyPlainRows`.
- The overview reads the clock twice, so `days + 1` bounds the number of points only when both
  readings fall on one date (`DaysBoundPointsExactly`).
- The migration comment names three register keys that were seeded before; there are four, and the
  downgrade restores none of them (`FourKeysAreLost`); over the rows that the two earlier migrations
  seed, going up and down drops exactly the sixteen at these keys (`SixteenRowsAreLost`).
- The branch that sets `date_posted` on opening (`backend/app/careers/service.py:288-289`) cannot be
  taken, because the column is not nullable and is set at creation; rows here always have a date.
- The load report counts an error only if its text is not empty. Its errors are the failed requests
  exactly when no request raised an error with empty text (`ErrorsCountFailuresExactly`), and
  `SilentFailureIsReportedAsSuccess` is a run reported without errors although its request failed.

## Model

| member | source | states |
|---|---|---|
| PublicJobs.ProjectionIsOpenRows | backend/app/careers/service.py:88-94 | the loaded list holds exactly the serialised OPEN rows, each as often as it occurs |
| PublicJobs.ListTellsOpenRows | backend/app/careers/service.py:45-96 | the list has one entry for each row whose status is OPEN; each entry is marked open and tells every public field of such a row, each name under its own field, the amounts only when they are disclosed |
| PublicJobs.ProjectedJobIsOpenRow | backend/app/careers/service.py:45-76 | every listed job comes from an OPEN row of the table, so no unpublished job leaks |
| PublicJobs.OpenRowIsProjected | backend/app/careers/service.py:88-94 | no OPEN row is missing from the list |
| PublicJobs.ProjectionIsOrdered | backend/app/careers/service.py:91 | featured first, newest first; rows that tie on both keep their insertion order |
| PublicJobs.HiddenRowChangesNothing | backend/app/careers/service.py:211-227 | adding a row that is not OPEN leaves the projection as it is, which is why creating needs no purge |
| PublicJobs.ProjectionRevealsExactly | backend/app/careers/service.py:45-76 | two tables have one projection if and only if their OPEN rows agree up to author and undisclosed compensation |
| PublicJobs.NarrowIsConjunction | backend/app/careers/service.py:114-127 | the chain of filter passes is one filter by all criteria together |
| PublicJobs.FilterOrderIsIrrelevant | backend/app/careers/service.py:114-127 | passes in any order, with any repetition, give the same list |
| PublicJobs.MatchingIsFilteredAndSorted | backend/app/careers/service.py:112-132 | what is paged is the filtered dataset, in its own order or by lower-cased title with equal titles left in order |
| PublicJobs.ListedExactlyWhenFitting | backend/app/careers/service.py:112-134 | for every query and sort a job is listed, as often as it is in the dataset, if and only if it meets each of team, location, work model, employment type and search text that is given and not empty; total is the number of such jobs |
| PublicJobs.HasSubstringMeansWithin | backend/app/careers/service.py:122-127 | the text is found if and only if the other is something, the text, and something |
| PublicJobs.ListedInOrder | backend/app/careers/service.py:129-132 | sorted by title, lower-cased titles ascend; otherwise the dataset's order is kept |
| PublicJobs.PageIsBlock | backend/app/careers/service.py:134-137 | page p is the p-th block of the matching list and total its length; a page past the end is empty |
| PublicJobs.PageNamesItself | backend/app/careers/routes.py:55-60 | the answer names the page, at least 1, and the size in 1 to 100 closest to the one asked for |
| PublicJobs.EarlyPageIsFirst | backend/app/careers/routes.py:55 | a page before the first is the first |
| PublicJobs.FirstPagesArePrefix | backend/app/careers/service.py:134-137 | the first n pages in a row are a prefix of the matching list |
| PublicJobs.PagesPartitionMatches | backend/app/careers/routes.py:55-60 | for every filter, sort and size, all pages in a row are exactly the matching list and their lengths sum to total |
| PublicJobs.ListAnswersFromTable | backend/app/careers/service.py:79-132 | loading the whole projection and filtering and sorting it in memory gives what one query over the table with all conditions would give, in the same order |
| PublicJobs.DetailAnswersFromTable | backend/app/careers/service.py:140-154 | detail succeeds if and only if an OPEN row has that id or slug |
| PublicJobs.FiltersDescribeOpenRows | backend/app/careers/service.py:157-170 | the offered options are exactly the values that OPEN rows have |
| PublicJobs.FiltersAreSorted | backend/app/careers/service.py:165-170 | each list of options is without repetition and in code-point order |
| Seqs.TextLeIsLexicographic | backend/app/careers/service.py:165-170 | one text comes before another if and only if, after a common beginning, it ends or has the smaller character |
| PublicJobs.DetailAgreesWithList | backend/app/careers/service.py:150-154 | detail succeeds exactly for ids and slugs of listed jobs and returns a listed job with that id or slug |
| PublicJobs.EveryJobAddressable | backend/app/careers/service.py:150-154 | each listed job is found under its own id and slug if and only if no earlier job answers to either |
| PublicJobs.OfferedTeamHasJobs | backend/app/careers/service.py:157-170 | a team offered as a filter option never leads to an empty result |
| PublicJobs.OfferedLocationHasJobs | backend/app/careers/service.py:157-170 | the same for an offered location |
| PublicJobs.OfferedWorkModelHasJobs | backend/app/careers/service.py:157-170 | the same for an offered work model |
| PublicJobs.OfferedEmploymentTypeHasJobs | backend/app/careers/service.py:157-170 | the same for an offered employment type |
| PublicJobs.OfferedOptionsPartitionTotal | backend/app/careers/service.py:157-170 | totals over the offered work models, and over the offered employment types, sum to the unfiltered total |
| CareersService.ReachableInv | backend/app/careers/service.py:79-297 | after every run ids and slugs are unique, the cache agrees with the table, status changes form lifecycle walks and the log holds the writes that did not fail |
| CareersService.CachedReadIsUncachedRead | backend/app/careers/service.py:79-96 | after every run a cached entry, live or not, is the projection of the current rows, although creating never purges |
| CareersService.PublicSurfaceIsNonInterfering | backend/app/careers/service.py:99-170 | tables that agree on the redacted OPEN rows give equal list, detail and filter answers to every query |
| CareersService.ListedJobIsFoundByName | backend/app/careers/service.py:150-154 | in every run listed ids and slugs are distinct, and a listed job is found under its own id and slug if and only if no job listed before it has a slug spelled like its id or an id spelled like its slug |
| CareersService.LifecycleOfEveryRun | backend/app/careers/service.py:260-297 | a requisition's status changes walk the lifecycle table from DRAFT, at most three of them are not OPEN/PAUSED flips, and a public one was approved before |
| CareersService.RunAges | backend/app/careers/service.py:230-297 | from any state on, date posted and slug never change, the rank never rises and a terminal status is final |
| CareersService.TransitionSpendsRank | backend/app/careers/service.py:260-268 | every allowed transition lowers the rank or is an OPEN/PAUSED flip |
| CareersEffects.TableByTarget | backend/app/careers/service.py:260-268 | which statuses lead to each status: every requisition that has not ended can be canceled, an opened one filled or closed, OPEN and PAUSED lead to each other, nothing leads back to DRAFT |
| CareersService.EndedIsNeverPublicAgain | backend/app/careers/service.py:256-268 | a FILLED, CLOSED or CANCELED requisition is in no list served later |
| CareersService.UpdateKeepsRemoteRule | backend/app/careers/service.py:238-244 | an accepted update leaves a REMOTE row with real locations if and only if it does not pass a null work model together with blank locations for it |
| CareersService.RunKeepsRemoteRule | backend/app/careers/service.py:188-192 | a run with distinct keywords keeps the rule for every row in all its states if and only if none of its updates passes a null work model with blank locations for a REMOTE row |
| CareersService.RouteBreaksRemoteRule | backend/app/careers/routes.py:113 | a request is accepted and leaves a REMOTE row with blank locations if and only if it omits the work model and the locations it leaves are blank; for a row that kept the rule, if and only if it sets blank ones |
| CareersService.RouteCannotInferLocations | backend/app/careers/routes.py:113 | the geography check strips a null location list, and so crashes, if and only if the request sets REMOTE without restating locations |
| CareersService.StatusTrailOfEveryRun | backend/app/careers/service.py:285-296 | in every run the status events of a requisition render a subsequence of its walk; with no failed audit write they render all of it and each before-hash is the previous after-hash |
| CareersService.LinkMeansSameStatus | backend/app/audit/service.py:15-19 | with an injective digest two status hashes are equal if and only if the statuses are |
| CareersService.Service.CreateRequisition | backend/app/careers/service.py:195-227 | the errors in their order, else a DRAFT row appended, the cache untouched and the event recorded |
| CareersEffects.CreateIsRefusedExactly | backend/app/careers/service.py:204-209 | a draft is refused if and only if its slug is blank or taken, or it is REMOTE with blank locations, or its id is taken |
| CareersEffects.CreatedRowHoldsRequest | backend/app/careers/service.py:211-222 | the last row is a DRAFT whose every field is what was given; the other rows and the cache stay |
| CareersEffects.CreationIsRecorded | backend/app/careers/service.py:223-226 | the event names actor and row and hashes slug, title and status draft after |
| CareersService.Service.UpdateRequisition | backend/app/careers/service.py:230-253 | the attribute loop applies exactly the given values, then the row is stamped, the cache purged and the event recorded |
| CareersEffects.RouteIsRefusedExactly | backend/app/careers/service.py:238-240 | an update through the route is refused if and only if it sets REMOTE and gives no locations or blank ones |
| CareersEffects.UpdateSetsFields | backend/app/careers/service.py:242-248 | for every row and accepted request each of the fifteen fields is the given value or the stored one; id, slug, status, date posted and author are unchanged, the row is stamped, other rows are untouched and the cache is purged |
| CareersEffects.UpdateIsRecorded | backend/app/careers/service.py:236-252 | the event hashes the stored title and status before and the updated title after |
| CareersEffects.UpdateHashesShowTitle | backend/app/careers/service.py:236-252 | with an injective digest its hashes are equal if and only if the title is unchanged |
| CareersService.Service.TransitionStatus | backend/app/careers/service.py:275-297 | refuses exactly the transitions outside the table, else changes the status, stamps, purges and records |
| CareersEffects.TransitionSetsStatus | backend/app/careers/service.py:285-292 | an allowed transition sets status and stamp of that row and nothing else, and purges |
| CareersEffects.TransitionIsRecorded | backend/app/careers/service.py:293-296 | the event carries the reason and hashes the status before and the status after |
| CareersService.Service.LoadPublicJobs | backend/app/careers/service.py:79-96 | serves a live entry or else the projection, which it caches for 30 seconds |
| CareersService.Service.ListJobs | backend/app/careers/service.py:99-137 | answers from the loaded dataset with bounded page and size |
| CareersService.Service.GetJob | backend/app/careers/service.py:140-154 | returns the first listed job with the id or slug, else not found |
| CareersService.Service.GetFilters | backend/app/careers/service.py:157-170 | offers the distinct values of the loaded dataset |
| CareersInterleaved.ServedListsAreRecent | backend/app/careers/service.py:79-96 | in every interleaving of reader and writer steps, with failing cache calls, each served list is the projection of a table current at most D + 30 seconds before, D bounding the query-to-answer delay |
| CareersInterleaved.EntryIsCurrentBetweenWrites | backend/app/careers/service.py:246-248 | if no delete is lost and no reader overtaken by a delete sets the entry, the entry is the current projection whenever no writer is between commit and delete |
| CareersInterleaved.OvertakenReaderInstallsStaleEntry | backend/app/careers/service.py:290-292 | a write between a reader's query and its set leaves a live entry that is current if and only if the write did not change the projection |
| CareersInterleaved.AtomicOperationIsUninterruptedRun | backend/app/careers/service.py:79-96 | each atomic operation is a run of the split steps without interruption: same table, same entry and expiry, same served list |
| CareersRace.LifecycleSurvivesExactly | backend/app/careers/service.py:281-290 | with check and write apart, every requisition keeps to the lifecycle table in all states of a run if and only if each write that another move of the row has overtaken comes before the requisition has ended and ends it or flips it between OPEN and PAUSED |
| CareersRace.HarmlessExactlyWhenAllowed | backend/app/careers/service.py:260-268 | for a checked move and a status that can come later, the table allows the move from there if and only if that status is not terminal and the move ends the requisition or is an OPEN/PAUSED flip |
| CareersRace.TrailIsTrueExactly | backend/app/careers/service.py:285-296 | the status events name the statuses that were replaced if and only if each write finds the status that its request had read |
| CareersRace.OrderlyRunsKeepLifecycle | backend/app/careers/service.py:281-296 | if no move of a row is written between another move's check and its write, each requisition walks the table with at most three moves besides OPEN/PAUSED flips, and the trail reports the statuses that were replaced |
| CareersRace.SecondWriterOverridesFirst | backend/app/careers/service.py:281-290 | two requests that pass the check from one status both write; the second move keeps the lifecycle if and only if the table lists it after the first, and its event names a status that was not the one replaced |
| CareersRace.FilledCanBePublicAgain | backend/app/careers/service.py:256-268 | so there is a run in which a FILLED requisition becomes PAUSED and then OPEN |
| CareersRace.TransitionIsCheckAndWrite | backend/app/careers/service.py:275-297 | the atomic transition is a check and its write without interruption: both go through or both refuse, with the same table and the same reported status |
| CareersRace.CreateAndUpdateOnBoard | backend/app/careers/service.py:195-253 | creating a requisition opens it on the board as DRAFT, and editing one changes no status |
| ApiKeys.CachingKeepsKeys | backend/app/apikeys/service.py:72-95 | deserialising a serialised key gives the key back |
| ApiKeys.ShownListAgreesButForUse | backend/app/apikeys/service.py:98-134 | after every run, whatever its clock does, the shown list has the account's rows in order and right in every field but the time of last use; revocation is never hidden |
| ApiKeys.ShownUseIsNeverTooLate | backend/app/apikeys/service.py:98-134 | after every run whose clock does not step back, the time of last use that is shown is never later than the stored one |
| ApiKeys.ListingIsOwnKeysNewestFirst | backend/app/apikeys/service.py:107 | a listing holds the account's rows, each as often as stored, newest first |
| ApiKeys.ClockStepMakesShownUseLate | backend/app/apikeys/service.py:124-134 | if a key is used, listed, and used again at an earlier instant, it is shown with the later one if and only if the entry still lives |
| ApiKeys.UseIsHiddenByLiveEntry | backend/app/apikeys/service.py:124-134 | while an entry is live a use never changes the shown list, and it changes the stored one if and only if the key is the account's own and was not already used at that instant |
| ApiKeys.AtMostTenActiveKeys | backend/app/apikeys/service.py:33-42 | in every run, whatever its clock does, at most ten rows are of the account and not revoked, and a new key is refused for that reason if and only if there are ten |
| ApiKeys.CreateIsAcceptedExactly | backend/app/apikeys/service.py:33-42 | a key is created if and only if fewer than ten are active and neither its id nor its hash is taken |
| ApiKeys.CreatedKeyHoldsRequest | backend/app/apikeys/service.py:39-45 | the raw key is the prefix and the token; the new row keeps its first sixteen characters and its hash, with the given account, label and time, unused and not revoked; nothing else of the table changes |
| ApiKeys.RawKeyIsNeverKept | backend/app/apikeys/service.py:30-40 | in every run no stored, cached or shown key holds more than sixteen characters of a raw key, so no generated raw key is kept |
| ApiKeys.KeyWorksUntilRevoked | backend/app/apikeys/service.py:112-134 | in every run a created key authenticates, as its row, in every later state if and only if its account has not revoked it |
| ApiKeys.RevokedRowIsStamped | backend/app/apikeys/service.py:113-119 | revoking, the first time or again, stamps that row with the instant and changes nothing else of the table |
| ApiKeys.RevocationIsFinal | backend/app/apikeys/service.py:112-134 | in every run, whatever its clock does, a key authenticates before its row is revoked and in no later state, also when it is revoked again |
| ApiKeys.Service.CreateApiKey | backend/app/apikeys/service.py:29-59 | refuses above the bound, else appends the row, purges the account's list and returns the raw key |
| ApiKeys.Service.ListApiKeys | backend/app/apikeys/service.py:102-109 | shows a live entry or else the account's rows newest first, which it caches |
| ApiKeys.Service.RevokeApiKey | backend/app/apikeys/service.py:112-121 | refuses foreign keys, else stamps the revocation and purges |
| ApiKeys.Service.AuthenticateApiKey | backend/app/apikeys/service.py:124-134 | finds the active row with the hash, stamps its use and leaves every cached list alone |
| CanonicalState.QuoteIsSelfDelimiting | backend/app/audit/service.py:18-19 | a JSON string literal, with every escape, ends where it ends whatever follows, and determines its text |
| CanonicalState.CanonicalIgnoresOrder | backend/app/audit/service.py:18-19 | the sorted-key rendering does not depend on the order in which the dictionary was built |
| CanonicalState.ObjectInjective | backend/app/audit/service.py:18-19 | no two objects share a rendering when values are self-delimiting |
| CanonicalState.HashIdentifiesState | backend/app/audit/service.py:15-19 | with an injective digest two states have equal hashes if and only if they are equal maps |
| JsonValues.RenderIsSelfDelimiting | backend/app/audit/service.py:18 | null, truth values, integers, text, lists and dictionaries, nested in any way, are written so that a value shows where it ends and which value it is |
| JsonValues.JsonIsSelfDelimiting | backend/app/audit/service.py:18 | so JSON values meet what the hashing results assume of a rendering |
| JsonValues.NormalIdentifiesSame | backend/app/audit/service.py:18 | sorting the keys at every level identifies exactly the values that differ in the order of dictionaries only |
| JsonValues.HashIdentifiesJsonState | backend/app/audit/service.py:15-19 | with an injective digest two recorded states, nested values included, have equal hashes if and only if they are the same dictionary |
| AuditTrail.EqualHashesMeanNoChange | backend/app/audit/service.py:118-127 | an event's before and after hashes are equal if and only if no recorded field changed |
| RecordedStates.EqualHashesMeanSameState | backend/app/audit/service.py:118-127 | for states of nested JSON values an event's two hashes are equal if and only if the states are the same dictionary, in whatever order dictionaries were built |
| RecordedStates.KeysAreComparableExactly | backend/app/audit/service.py:18 | the keys of a dictionary can be sorted if and only if they are all text, all numbers, or at most the one null |
| RecordedStates.MixedKeysMakeLoggingRaise | backend/app/audit/service.py:118-127 | a state that holds a dictionary with a text key and a number key makes logging raise, whatever else is logged and whoever acts |
| AuditTrail.ConventionsAgree | backend/app/audit/service.py:86-109 | every request records the same event when actor, target and after-state are passed in the other convention, whatever reason, correlation id, before-state and account it has |
| AuditTrail.WriterRaisesExactly | backend/app/audit/service.py:105-127 | logging raises if and only if actor or target is missing, or no account is given and attribution raises, or a state holds a value that cannot be written |
| AuditTrail.AttributionRaisesExactly | backend/app/audit/service.py:50-72 | attribution raises if and only if the actor is text that Python accepts and the accounts cannot be read or the database cannot cast it, or the users are needed and cannot be read, or the actor is neither account nor user and the same holds of the id in the target and the table it names |
| AuditTrail.AuditLog.LogEvent | backend/app/audit/service.py:75-138 | appends exactly the requested event, or swallows a failed write leaving the log as it was, or raises before writing |
| AuditTrail.LoggedEventHoldsRequest | backend/app/audit/service.py:105-127 | each field of a logged event from the request alone: actor, action, given or joined target, reason, correlation id, given account, the hash of the state before, and the hash of the state after or else of the metadata |
| AuditTrail.LoggedEventIsAttributed | backend/app/audit/service.py:50-72 | without a given account an event is attributed to an account if and only if the actor names it, or names a user of it, or names neither and the target names a compliance case or porting request of it |
| AuditTrail.EventsShareHashesExactly | backend/app/audit/service.py:118-127 | across events, with an injective digest, before-hashes are equal if and only if the states before were the same, likewise after, and one event links to another if and only if it left what the other found |
| RecordedStates.JsonEventsShareHashesExactly | backend/app/audit/service.py:118-127 | the same for states of nested JSON values |
| AuditTrail.ViewIsNewestOwnEvents | backend/app/audit/service.py:141-152 | the view holds only the account's own events, newest first, and leaves one out only when full of events at least as new |
| UuidReaders.DatabaseFormsAreAccepted | backend/app/audit/service.py:22-27 | whatever text the database reads as a UUID, Python accepts, and both see the same digits |
| UuidReaders.UrnFormIsLost | backend/app/audit/service.py:22-27 | each of these texts with a URN prefix is accepted by Python and not read by the database |
| UuidReaders.UrnActorMakesLoggingRaise | backend/app/audit/service.py:50-56 | for every id in every spelling the database reads, logging with its URN form as actor raises, whatever the target, the tables and the failing reads |
| UuidReaders.UrnTargetMakesLoggingRaise | backend/app/audit/service.py:58-70 | so does a case or porting target in that form, for an actor that is neither account nor user |
| UuidReaders.PlainActorIsLogged | backend/app/audit/service.py:50-52 | the canonical form of an account is logged and attributed to it, unless the read fails or a state cannot be written |
| UuidReaders.CanonicalTextReadsBack | backend/alembic/versions/c1d9a047e3f2_add_account_id_to_audit_events.py:36-59 | the database reads its own rendering of an id as that id |
| UuidReaders.LibraryIsLawful | backend/alembic/versions/c1d9a047e3f2_add_account_id_to_audit_events.py:29 | the two readers and the canonical rendering meet the laws assumed of UUID libraries |
| UuidReaders.TwoSpellingsDisagree | backend/alembic/versions/c1d9a047e3f2_add_account_id_to_audit_events.py:36-40 | for every account, its id without hyphens is attributed by the writer and missed by the passes, and with its URN form the writer raises and the passes go on |
| AuditBackfill.AttributeAccounts | backend/alembic/versions/c1d9a047e3f2_add_account_id_to_audit_events.py:36-40 | the first pass, in place: rows whose actor is an account get it, all others keep what they had |
| AuditBackfill.AttributeUsers | backend/alembic/versions/c1d9a047e3f2_add_account_id_to_audit_events.py:41-47 | the second pass, in place: rows still without account whose actor is a user get that user's account |
| AuditBackfill.AttributeTargets | backend/alembic/versions/c1d9a047e3f2_add_account_id_to_audit_events.py:48-59 | the third and fourth pass, in place: rows still without account whose target names a case, or a porting request, get its account |
| AuditBackfill.Upgrade | backend/alembic/versions/c1d9a047e3f2_add_account_id_to_audit_events.py:32-59 | every row ends with its first applicable source and is otherwise unchanged |
| AuditBackfill.BackfillMatchesExactlyPlainRows | backend/app/audit/service.py:30-72 | the passes agree with attribution at write time in every database if and only if the actor is no UUID text or hyphenated and the target's id is no UUID text or canonical |
| AuditBackfill.PlainRowAgrees | backend/app/audit/service.py:50-72 | for such rows both give the same account in every database |
| AuditBackfill.UnhyphenatedAccountIsMissed | backend/alembic/versions/c1d9a047e3f2_add_account_id_to_audit_events.py:36-40 | an actor that is an account id without hyphens is attributed by the writer and missed by the passes |
| AuditTrail.HyphenatedByPosition | backend/alembic/versions/c1d9a047e3f2_add_account_id_to_audit_events.py:29 | the pattern accepts exactly 36 characters with hyphens at the four places and hexadecimal digits of either case elsewhere |
| Rounding.RoundIsNearest | backend/app/analytics/service.py:79-80 | rounding gives the nearest integer, and of two the even one |
| Rounding.RoundMonotone | backend/loadtest.py:48-51 | rounding to 0, 1 or 2 decimals keeps order |
| Rounding.Round2IsNear | backend/app/analytics/service.py:79-86 | two-decimal rounding gives a whole number of hundredths and moves a figure by at most 0.005 |
| Analytics.ClampDays | backend/app/analytics/service.py:15-16 | the number in the range 1 to 90 closest to the one asked for |
| Analytics.DaysAddUp | backend/app/analytics/service.py:35-61 | before rounding the figures of the days add up to the total exactly |
| Analytics.OverviewConserves | backend/app/analytics/service.py:74-90 | daily counts sum to the totals, and rounded daily minutes differ from the rounded total by at most 0.005 (n + 1) |
| Analytics.PointsPerRange | backend/app/analytics/service.py:24-26 | with no row after now there are at most days + 1 points, plus one for each midnight between the two clock readings |
| Analytics.PointsReachBound | backend/app/analytics/service.py:24-26 | a call every day reaches the bound of PointsPerRange |
| Analytics.DaysBoundPointsExactly | backend/app/analytics/service.py:24-26 | every account, whatever its rows in the window, has at most days + 1 points if and only if both clock readings fall on one date |
| Analytics.GetOverview | backend/app/analytics/service.py:19-91 | the loops over the tables compute an overview of the account's own rows since the window began: one point for each day with such a row, dates increasing, each with that day's counts and rounded minutes, and the rounded totals, all in terms of the tables |
| Analytics.OverviewTellsTables | backend/app/analytics/service.py:30-61 | the call and message totals are the numbers of positions of the account's rows in the window, the minutes the rounded sixtieth of their seconds, likewise for each day |
| Analytics.OverviewIsIsolated | backend/app/analytics/service.py:30-59 | tables that agree, in order, on the account's rows in the window give the same overview, whatever rows others have |
| Analytics.AddCalls | backend/app/analytics/service.py:35-40 | after the loop each bucket and the running total hold exactly the figures of the calls |
| Analytics.AddParticipants | backend/app/analytics/service.py:48-52 | the same for video minutes, open sessions counted up to now |
| Analytics.AddMessages | backend/app/analytics/service.py:60-61 | the same for messages |
| Analytics.DailyPoints | backend/app/analytics/service.py:74-80 | one point per bucket, dates strictly increasing, minute figures rounded in place |
| LoadTest.PercentileIsMonotone | backend/loadtest.py:57-64 | over a sorted list the percentile is monotone on 0 to 100, stays between the first and the last element and reaches them at 0 and 100 |
| LoadTest.PercentileInterpolates | backend/loadtest.py:60-64 | at position i + t between two elements the percentile divides their distance as t to 1 - t, at a whole position it is the element |
| LoadTest.SummaryIsOrdered | backend/loadtest.py:42-51 | in every summary the rounded p50, p90, p99 and max are in order and the error rate is a percentage, 0.0 without failures |
| LoadTest.LatenciesAreSorted | backend/loadtest.py:42 | the sorted list holds every latency as often as it was measured, ascending |
| LoadTest.FiguresAreNear | backend/loadtest.py:48-51 | p50, p90 and p99 are, to one decimal, the interpolated values at 50, 90 and 99 percent of the way through the sorted latencies, and max the largest |
| LoadTest.ErrorRateIsNear | backend/loadtest.py:47 | the error rate is a hundred times errors over count, to one decimal |
| LoadTest.LatenciesIgnoreOrder | backend/loadtest.py:42 | the latency figures do not depend on the order of the results |
| LoadTest.BreakdownConserves | backend/loadtest.py:67-71 | the status counts of an endpoint sum to its requests |
| LoadTest.ReportConserves | backend/loadtest.py:35-54 | the counts of all endpoints sum to the number of results |
| LoadTest.ErrorsCountFailuresExactly | backend/loadtest.py:43-47 | in every report of timed requests the errors of an endpoint fall short of its failed requests by those that raised an error with empty text, so they are equal if and only if there is none |
| LoadTest.SilentFailureIsReportedAsSuccess | backend/loadtest.py:74-82 | one request that raised an error with empty text is reported with no error and error rate 0.0 |
| LoadTest.Tally | backend/loadtest.py:68-70 | the loop counts each occurring status code exactly |
| LoadTest.StatusBreakdown | backend/loadtest.py:67-71 | each occurring code once, increasing, with the number of its rows |
| LoadTest.SummarizeEndpoint | backend/loadtest.py:41-53 | count, failures, rate, rounded percentiles of the sorted latencies and breakdown of one endpoint |
| LoadTest.Summary | backend/loadtest.py:35-54 | one such summary for each endpoint that occurs, over exactly its own results |
| Entitlements.NewRowReadsBack | backend/app/billing/service.py:1429-1435 | a new row has exactly the column of its type filled, and the application reads the register's value from it |
| Entitlements.ValueRow | backend/alembic/versions/fd300247929d_seed_zl_com_ent_001_v3_register.py:123-134 | the row is typed by the value, truth values before integers |
| Entitlements.UniqueKeysMeansNoDuplicates | backend/app/billing/models.py:129 | the checked constraint says that no two rows share plan and key |
| Entitlements.RenameKeepsUniqueExactly | backend/alembic/versions/fd300247929d_seed_zl_com_ent_001_v3_register.py:149-153 | a rename keeps the constraint if and only if no plan holds both keys |
| Entitlements.MigrationSucceedsExactly | backend/alembic/versions/fd300247929d_seed_zl_com_ent_001_v3_register.py:137-172 | delete, renames and insert go through if and only if no plan holds both keys of a rename and no inserted row is already there, and keep the constraint |
| Entitlements.UpgradeSucceedsExactly | backend/alembic/versions/fd300247929d_seed_zl_com_ent_001_v3_register.py:137-172 | upgrading keeps the constraint and fails if and only if some plan holds both names of a renamed key |
| Entitlements.UpgradedTable | backend/alembic/versions/fd300247929d_seed_zl_com_ent_001_v3_register.py:137-172 | every look-up after an upgrade: register rows, nothing at removed keys, renamed rows unchanged but for the key, all else unchanged |
| Entitlements.EveryPlanHoldsTypedValue | backend/alembic/versions/fd300247929d_seed_zl_com_ent_001_v3_register.py:165-172 | each plan has one well-typed row for each register key, from which the register's value is read |
| Entitlements.UpgradeIsIdempotent | backend/alembic/versions/fd300247929d_seed_zl_com_ent_001_v3_register.py:141-148 | upgrading again goes through and changes nothing but ids, rows and order included |
| Entitlements.DowngradeFollowsUpgrade | backend/alembic/versions/fd300247929d_seed_zl_com_ent_001_v3_register.py:175-213 | after an upgrade the downgrade always goes through and keeps the constraint |
| Entitlements.AtRoundTrip | backend/alembic/versions/fd300247929d_seed_zl_com_ent_001_v3_register.py:175-213 | every look-up after an upgrade and a downgrade |
| Entitlements.RoundTripRestoresExactly | backend/alembic/versions/fd300247929d_seed_zl_com_ent_001_v3_register.py:175-213 | the downgrade restores all but the lost keys if and only if the removed keys held the seeds, no row bore a new name and no other register key had rows |
| Entitlements.SeedAll | backend/alembic/versions/fd300247929d_seed_zl_com_ent_001_v3_register.py:167-171 | one row per key and plan, keys outermost |
| Entitlements.EntitlementTable.Migrate | backend/alembic/versions/fd300247929d_seed_zl_com_ent_001_v3_register.py:140-172 | the statements one after the other; a violated constraint leaves the table as it was |
| Entitlements.EntitlementTable.Upgrade | backend/alembic/versions/fd300247929d_seed_zl_com_ent_001_v3_register.py:137-172 | the upgrade as a change of the table |
| Entitlements.EntitlementTable.Downgrade | backend/alembic/versions/fd300247929d_seed_zl_com_ent_001_v3_register.py:175-213 | the downgrade as a change of the table |
| EntitlementRegister.RegisterIsWellFormed | backend/alembic/versions/fd300247929d_seed_zl_com_ent_001_v3_register.py:60-120 | the actual keys are distinct, play one part each, and the removed ones are those the downgrade restores, so all of the above holds of it |
| EntitlementRegister.GrantsAreUpward | backend/alembic/versions/fd300247929d_seed_zl_com_ent_001_v3_register.py:64-105 | each key with truth values is granted from its first plan upward in the order starter, business, pro, scale, and to no smaller plan |
| EntitlementRegister.GradesAre | backend/alembic/versions/fd300247929d_seed_zl_com_ent_001_v3_register.py:64-105 | the values of the graded keys, plan by plan |
| EntitlementRegister.FourKeysAreLost | backend/alembic/versions/fd300247929d_seed_zl_com_ent_001_v3_register.py:175-213 | up and down lose exactly the rows of routing.advanced, reporting.advanced, routing.business_hours and reporting.business if and only if the table held the seeds and nothing else at touched keys |
| EntitlementSeeds.AtPlanByPlan | backend/alembic/versions/710c98f42bfc_add_plan_entitlements_table_and_seed_.py:66-78 | the first seeding gives every plan and key its row, plans outermost |
| EntitlementSeeds.SeededTableIsUnique | backend/alembic/versions/245b5ab62c15_seed_phase_2_entitlement_keys_team_.py:64-83 | the two seedings together meet the constraint |
| EntitlementSeeds.SeedsLoseExactly | backend/alembic/versions/fd300247929d_seed_zl_com_ent_001_v3_register.py:137-213 | for every register that two seedings fit, upgrading and downgrading their rows goes through and drops exactly the rows of all plans at the lost keys |
| EntitlementSeeds.SixteenRowsAreLost | backend/alembic/versions/fd300247929d_seed_zl_com_ent_001_v3_register.py:137-213 | the actual seedings meet every condition of FourKeysAreLost, and the rows missing after up and down are exactly those of the four plans at the four keys |

## Left out

- Operations in `CareersService` and `ApiKeys` are atomic: two concurrent key creations can pass the bound together, and two concurrent updates of one requisition can lose one. `CareersRace` splits status transitions (check and write, without the cache), and `CareersInterleaved` covers the cache side, since a commit there may install any table.
- Failing Redis calls and the circuit breaker: only `CareersInterleaved` has failing calls, for the careers cache.
- UpdateRequisition: only the keywords of the update request; a key that is no attribute of the row is ignored by the source, and status and slug cannot be passed through the route. An id that is not UUID text answers NoSuchJob here, where comparing the id column raises in the database; text longer than its column is accepted here, where the commit fails.
- TransitionStatus: the same for an id that is not UUID text.
- Careers and API-key events in the audit log: `CareersService` keeps its own rows of the log without the account attribution that `AuditTrail` models, and `ApiKeys` records no events.
- ResolveAccountId: returns the account as a 128-bit id, where the source returns the actor's text, which the id column stores as the same id.
- WriterRaisesExactly: circular states and values whose own conversion to text raises are values that cannot be written, of which no example is constructed; `RecordedStates` constructs those with unsortable keys.
- PythonAccepts: decimal digits and blanks outside ASCII, which `int(text, 16)` also reads; they only add to the texts with which logging raises. `WriterRaisesExactly` holds for any reader.
- HashIdentifiesJsonState: floating-point numbers, keys that are not text, and `default=str`, under which a date and its text have one rendering.
- CachingKeepsKeys: `isoformat` and `fromisoformat` are inverses by construction, and a missing `created_at`, which the column does not allow, is not modelled.
- GetOverview: joins are already made, so a participant or a message carries its account; active numbers and summaries are counts passed through; all instants are in one time zone.
- PercentileIsMonotone: percentages outside 0 to 100, which the report never asks for, and floating-point error.
- Migrate: `created_at`, the foreign key to plans, column lengths and the primary key (ids come from a supply and are assumed fresh).
- Events, notifications and logging after a commit, authorisation, rate limits, HTTP status codes and response schemas: no effect on the modelled state.
- `list_all_jobs_for_staff`, `get_job_for_staff` as an endpoint, and `downgrade` of the audit migration: a sort, a look-up and dropping a column.
- The billing service apart from how it reads a stored entitlement, and the compliance, consent, risk, numbering, porting, messaging, media and other services: separate from the parts modelled here.
- Seeds of e-mail templates and grants, DDL-only migrations, the front end and the service worker: constant data and plumbing.
