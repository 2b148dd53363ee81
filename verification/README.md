# Verified model of the calendar server's core

A calendar server stores events, recurring series with per-occurrence overrides and tasks; it syncs
them both ways with Google, runs background jobs, limits request rates and removes duplicates. This
project models the parts where one wrong branch loses or duplicates data, and proves what they promise
for every input, every run or every interleaving. `dafny verify dfyconfig.toml` checks the whole project.

How it is laid out:

- `Recurrence` walks a series: any non-decreasing, possibly endless rule stream merged with extra dates,
  minus excluded dates (RRULE, RDATE and EXDATE, sections 3.8.5.1 to 3.8.5.3 of RFC 5545).
- `Rules` gives stored events fixed-step rules (every so many days, with no end, COUNT or UNTIL) and
  proves what splitting and moving a series does to its occurrences.
- `EventEdits` says what each edit ("this", "following", "all", delete) makes of the event table and
  proves the invariants over every run; `EditEffects` says in terms of rows and occurrences what every
  command takes away, edits and leaves; `EventStore` is the same as a class that changes the table row by
  row, proved equal to it. `Occurrences` is the list view, `AllDay` the time-zone margin around it.
- `SyncPull` and `SyncPush` are the steps of the Google sync over the local tables, the mapping, the
  outbox and the remote calendar with its etags; `SyncEffects` says what is gone, new or changed on either
  side after each of them; `SyncStore` runs the pull imperatively, `SyncRepull`
  proves that pulling again adopts, `SyncConflict` says what one push and one landing make of an event
  edited on both sides, and `SyncRuns` what every interleaving of pulls by sync token and pushes comes to.
- `Keys` are the base-62 ordering keys, `Limiter` the rate limiter, `Jobs`, `JobLife` and `JobStore` the job table,
  `Idempotency` the replay of POST requests, `Notes` the text format of Google task notes, `Dedup` the duplicate scan.

Where the code does not do what its surroundings suggest, the model follows the code: a lemma shows an
input or a run, and another says when the promise holds.

- A new key misses its upper bound exactly when that bound is the lower one padded with zeros.
- A series splits without loss exactly when the cut is clean: where the two new rules disagree with the old
  one, the cut itself, the start, an extra or an excluded date must cover for them. Cuts at values of the
  rule or after its last one are clean; a cut at another extra date makes up occurrences, because UNTIL is
  overwritten from the cut. In the same way a series moves as a whole exactly when no step that matters
  crosses UNTIL. Both conditions are bounded checks on the series (`Rules.CleanCut`, `Rules.MovesWhole`).
- The series split off gets a uid made from the old uid and the instant, so a second split at one instant is
  refused while the first one's tail exists, whatever an edit of the whole old series did in between.
- RetryAfter is exact for requests no larger than the burst; a larger one, which only the exported AllowN
  can make, is told to retry in vain.
- A second pull takes the read-only mark off exactly those overrides that had it only from their series.
- Pulls of one binding may overlap, and the sync token stored last counts. When a version fetched before a
  push lands after it and a token that covers the pushed one is stored last, no pull by token brings the
  two sides together again. One push and one pull settle a conflict exactly when that has not happened or
  the pull fetches everything; it never happens while pulls of a binding run one at a time.
- A mapping without an etag makes the push unconditional, so that the order of pull and push decides.
- A failed job whose twin is queued is deleted in a second statement, before which the twin may be claimed.
- Two stopped jobs with one key stay, and the reap fails as a whole, until a job with their key is enqueued
  or a reap finds only one of them stale.
- Notes with a blank checklist entry do not read back, and a body without entries is taken for notes exactly
  when below its last separator it has only blank lines and entries, and at least one entry.
- A duplicate may be removed although its partner is gone, or (by fingerprint) although nothing left shares
  its uid or fingerprint; for both the exact condition is given.

## Model

| member | source | states |
|---|---|---|
| `Keys.ScanAfter` | internal/domain/position.go:20-27 | the loop finds the key after: first digit below the last one raised, else one digit more |
| `Keys.ScanBefore` | internal/domain/position.go:29-39 | the loop finds the key before, decided by the first digit above zero |
| `Keys.ScanMidpoint` | internal/domain/position.go:41-80 | the common-prefix loop and its recursion compute the midpoint function |
| `Keys.PlaceBetween` | internal/domain/position.go:7-18 | the key is above the lower bound, ends in no zero, is at most one digit longer than the longer bound, and is below the upper bound exactly when that is not the lower one padded with zeros |
| `Keys.MidpointBetween` | internal/domain/position.go:41-80 | the midpoint of keys in order lies strictly between them unless the upper is the lower padded with zeros |
| `Keys.MidpointOvershoots` | internal/domain/position.go:41-80 | on padded bounds the midpoint is not below the upper one |
| `Keys.KeyAfterAbove` | internal/domain/position.go:20-27 | the key after is above, a good key and at most one digit longer |
| `Keys.KeyBeforeBelow` | internal/domain/position.go:29-39 | the key before is below, a good key and at most one digit longer, for any bound with a digit above zero |
| `Keys.KeyBetweenPlace` | internal/domain/position.go:7-18 | for all keys: above the lower bound, well-formed, and strictly below the upper exactly when it is not zero padding |
| `Keys.KeyBetweenStrict` | internal/domain/position.go:7-80 | for bounds in order that do not end in zero (empty is open) the key lies strictly between them, ends in no zero and is at most one longer |
| `Keys.PaddedBoundMissed` | internal/domain/position.go:41-80 | nothing is found between "1" and "10" |
| `Keys.InsertKeepsOrder` | internal/domain/position.go:7-18 | inserting between neighbours keeps a list strictly ordered and well-formed |
| `Keys.BuiltListsAreOrdered` | internal/domain/position.go:7-80 | every list built by insertions at any places is strictly ordered with good keys |
| `Recurrence.TakeNext` | internal/recurrence/series.go:136-149 | takes the smaller of the rule's value and the next extra date, the rule first on a tie |
| `Recurrence.Each` | internal/recurrence/series.go:119-161 | ends on every stream; the visitor sees, ascending and once each, exactly the non-excluded starts up to where it stopped, all of them, or all within the iteration budget; an error only in the last case |
| `Recurrence.Between` | internal/recurrence/series.go:58-78 | on success exactly the starts overlapping the window, strictly increasing, within the limit; fails exactly when there are more or the rule is too long to reach the window's end |
| `Recurrence.Contains` | internal/recurrence/series.go:80-89 | on success exactly membership; fails exactly when the rule is too long to tell |
| `Recurrence.OverlapsMeans` | internal/recurrence/series.go:163-171 | two spans overlap if and only if they share an instant; one without length if and only if it lies in the window |
| `Rules.ValuesHit` | internal/recurrence/series.go:31-56 | the iterator yields exactly the grid points within the rule's bound |
| `Rules.FromEventOccurs` | internal/recurrence/series.go:31-56 | the series of an event is ordered and its starts are the event's occurrences: start, rule and extra dates minus excluded ones |
| `Rules.CountBefore` | internal/recurrence/series.go:222-230 | the loop counts the leading rule values before the cut |
| `Rules.SplitRule` | internal/recurrence/series.go:206-241 | the branches and the counting loop give the head and tail rules |
| `Rules.CountDivides` | internal/recurrence/series.go:231-240 | COUNT divides between head and tail with no loss, at the cut |
| `Rules.SplitDividesRule` | internal/recurrence/series.go:206-241 | head and tail rules yield exactly the old values before and from the cut, if and only if the cut is a rule value or lies after the last one with no step between UNTIL and it |
| `Rules.SplitTimes` | internal/service/events.go:595-605 | the times before and from the cut, in order, nothing lost |
| `Rules.SplitConserves` | internal/recurrence/series.go:206-241 | occurrences of head and tail are exactly the old ones before and from the cut if and only if the cut is clean, and of the head alone if and only if the head is, both bounded checks of the series |
| `Rules.CleanHeadIs` | internal/recurrence/series.go:213-215 | the head rule agrees everywhere it matters if and only if every step between UNTIL and the cut lies beside the rule |
| `Rules.CleanTailIs` | internal/recurrence/series.go:212-240 | the tail rule agrees everywhere it matters if and only if the cut is on the grid, or the rule ends and the points of both grids from the cut on lie beside it |
| `Rules.CountIs` | internal/recurrence/series.go:222-230 | the counting loop gives the number of leading values before the cut in closed form |
| `Rules.CutPointIsClean` | internal/recurrence/series.go:206-241 | cuts at a value of the rule, or after the last one with no step up to the cut, are clean |
| `Rules.HeadKeeps` | internal/recurrence/series.go:206-241 | wherever the series is cut, the head keeps every earlier occurrence |
| `Rules.ExtraDateCutMakesUp` | internal/recurrence/series.go:213-215 | a cut at an extra date off the grid makes up occurrences |
| `Rules.CutAfterUntilRevives` | internal/recurrence/series.go:213-215 | a cut days after UNTIL revives the days between |
| `Rules.ShiftAll` | internal/service/events.go:607-613 | every time moved by the same amount, in place |
| `Rules.ShiftRule` | internal/service/events.go:570-581 | moving the start moves all rule values by the same amount if and only if no step crosses UNTIL |
| `Rules.ShiftMoves` | internal/service/events.go:570-581 | an occurrence moves along if and only if the rule does there, or it is the start, an extra or an excluded date |
| `Rules.MovesWholeIs` | internal/service/events.go:570-581 | the rule moves along everywhere it matters if and only if every step between UNTIL and UNTIL less the shift lies beside the rule |
| `EventEdits.ApplyPatch` | internal/service/event_apply.go:65-95 | an accepted patch keeps the link of an override and the validity of the event |
| `EventEdits.SyncKeeps` | internal/service/events.go:525-568 | after overrides followed their series, all of them sit on occurrences and are distinct |
| `EventEdits.UpdateThisKeeps` | internal/service/events.go:393-415 | editing one occurrence keeps the table sound |
| `EventEdits.UpdateAllKeeps` | internal/service/events.go:417-436 | editing a whole series keeps the table sound |
| `EventEdits.UpdateFollowingKeeps` | internal/service/events.go:438-478 | splitting a series keeps the table sound, overrides hanging on the right half |
| `EventEdits.ExcludeInstanceKeeps` | internal/service/events.go:480-497 | deleting one occurrence keeps the table sound |
| `EventEdits.TruncateKeeps` | internal/service/events.go:499-523 | deleting an occurrence and all after it keeps the table sound |
| `EventEdits.CommandKeeps` | internal/service/events.go:256-322 | every create, update or delete of any scope, failed or not, keeps the table sound |
| `EventEdits.EveryRunKeeps` | internal/service/events.go:256-322 | over every run all overrides of a series have distinct recurrence ids, each an occurrence of its current master |
| `EventEdits.FollowingConserves` | internal/service/events.go:438-478 | "following" without new timing divides the occurrences exactly if and only if the cut is clean; then every override stays on its occurrence and nothing else changes; it fails if and only if the uid of the new series is taken or an override from the cut on is out of the walk's reach |
| `EventEdits.SecondSplitRefused` | internal/service/events.go:615-621 | after a split and any edit of the whole old series, a second split at the same instant fails on the uid |
| `EventEdits.AllMoves` | internal/service/events.go:417-436 | "all" with a new start moves every occurrence by the same amount if and only if no step that matters crosses UNTIL; then every override moves along and none is lost |
| `EventEdits.FreeSeriesMoves` | internal/service/events.go:417-436 | a series whose rule crosses no UNTIL, one without UNTIL among them, moves as a whole with all its overrides |
| `EventEdits.ExcludeRemoves` | internal/service/events.go:480-497 | takes away exactly that occurrence and its override |
| `EventEdits.TruncateRemoves` | internal/service/events.go:499-523 | takes away exactly the overrides from the cut on, and exactly the occurrences from it on if and only if the head is clean |
| `EditEffects.PatchMeans` | internal/service/event_apply.go:65-234 | an accepted patch sets exactly the title, status, day kind, start, end, rule and dates it gives; without an end the event stays as long as it was, or takes a day or an hour where the day kind changed; an override keeps to having no recurrence |
| `EditEffects.PatchAccepts` | internal/service/event_apply.go:125-272 | a patch is accepted if and only if the event it describes ends after it starts and lasts at most 366 days, a new day kind comes with a new start, times of an all-day event are midnights, and the recurrence given is possible and within its caps; otherwise it is invalid |
| `EditEffects.SpeaksResolves` | internal/service/events.go:331-391 | an override's own id, or a series and an instant, mean that series and occurrence; no scope means "this"; it fails if and only if a series is named with an instant it does not have (not found) or that its walk cannot reach (too many) |
| `EditEffects.NoSuchInstant` | internal/service/events.go:363-379 | a series named with an instant it does not have is not found, and one out of reach is given up on, for every delete and update |
| `EditEffects.NothingThere` | internal/service/events.go:339-342 | an id that is not there is not found |
| `EditEffects.DeleteOne` | internal/service/events.go:299-322 | deleting with scope "this" or none, by series and instant or by the id of the override, takes away exactly that occurrence and its override and leaves every other row; it fails if and only if the instant is not found |
| `EditEffects.DeleteFollowing` | internal/service/events.go:299-322 | deleting "following" removes the series and its overrides at or before its start; later it removes exactly the overrides from there on, and exactly the occurrences if and only if the head is clean |
| `EditEffects.DeleteAll` | internal/service/events.go:299-322 | deleting "all" removes the row, or the series of the override named, with all its overrides and nothing else |
| `EditEffects.DeleteWhole` | internal/service/events.go:299-322 | without an instant the row and its overrides go; "this" or "following" of a series is then invalid |
| `EditEffects.DeleteSingle` | internal/service/events.go:299-322 | an event that does not recur goes as a whole whatever scope or instant is given |
| `EditEffects.UpdateOne` | internal/service/events.go:393-415 | editing with scope "this" or none leaves exactly one row linked to that occurrence, which holds what the patch gives and otherwise what the override had, or the series' text, day kind and length at that instant; every other row is as it was; an edit of the text fails only where the instant is not found |
| `EditEffects.TextStaysPut` | internal/service/events.go:583-593 | an edit of the text leaves an override where it was and puts a new one at its instant with the series' length and day kind |
| `EditEffects.WhollyIsAll` | internal/service/events.go:256-297 | "all", an edit without instant, one of a single event and "following" from the first occurrence on are all edits of the whole row |
| `EditEffects.UpdateWhole` | internal/service/events.go:417-436 | an edit of all leaves the row with what the patch gives, adds no row and changes none that is no override of it |
| `EditEffects.OverridesFollow` | internal/service/events.go:525-568 | an edit of all leaves exactly those overrides whose instant, moved along with the start if that is all that changed, is an occurrence of the edited series; their content is as it was |
| `EditEffects.TextOfAll` | internal/service/events.go:417-436 | an edit of the text of all changes the row alone: no time, no override and no other row |
| `EditEffects.UpdateRest` | internal/service/events.go:438-478 | "following" at a later occurrence leaves the head with the old text and times, a new row with the patch on the occurrence at the cut and a uid made from the old one and the instant (a new one if that is longer than 1000 bytes), the overrides before the cut where they were, and no other row changed |
| `EditEffects.TextOfRest` | internal/service/events.go:438-478 | an edit of the text from a later occurrence on divides the series exactly if and only if the cut is clean; it fails only where the instant is not found, the uid of the new part is taken or a later override is out of reach |
| `EditEffects.CreateStores` | internal/service/events.go:219-254 | a new event is stored as given and no other row changes; it fails if and only if it is no valid event of its own (invalid), or its id or uid is taken (conflict) |
| `EventStore.OrderIsSafe` | internal/service/events.go:540-568 | ascending for a negative shift and descending for a positive one, no override is moved onto one still waiting |
| `EventStore.NoClash` | internal/service/events.go:540-568 | no intermediate state of the loop has two overrides with one recurrence id |
| `EventStore.MoveDates` | internal/service/events.go:570-581 | excluded and extra dates move with the start unless the patch sets them |
| `EventStore.CutSeries` | internal/service/events.go:438-460 | head, tail and patched tail of a cut series, or the error |
| `EventStore.Store.Overrides` | internal/store/pg/events.go:34-35 | the overrides of a series, ascending by recurrence id, all of them |
| `EventStore.Store.UpdateRow` | internal/store/pg/events.go:44-52 | writes one row; asks that the unique index on series and recurrence id is met at that moment |
| `EventStore.Store.SyncOverrides` | internal/service/events.go:525-568 | the loops over the overrides give what the specification says, through index-safe states only |
| `EventStore.Store.Resolve` | internal/service/events.go:331-391 | finds target, scope and instance as `EventEdits.Resolve` does, or its error; what those are is said by `EditEffects.SpeaksResolves` |
| `EventStore.Store.UpdateThis` | internal/service/events.go:393-415 | inserts or updates the one override as `EventEdits.UpdateThis` does, or fails as it does; what the row then holds is said by `EditEffects.UpdateOne` |
| `EventStore.Store.UpdateAll` | internal/service/events.go:417-436 | the new table or the error the specification gives |
| `EventStore.Store.UpdateFollowing` | internal/service/events.go:438-478 | the new table or the error the specification gives |
| `EventStore.Store.ExcludeInstance` | internal/service/events.go:480-497 | the new table the specification gives |
| `EventStore.Store.TruncateSeries` | internal/service/events.go:499-523 | the new table or the error the specification gives |
| `EventStore.Store.Execute` | internal/service/events.go:256-322 | every command makes the table `EventEdits.Exec` gives, keeps it sound and leaves it unchanged when it fails; what each command removes, edits and leaves is said by `EditEffects` |
| `Occurrences.Classify` | internal/service/events.go:138-150 | singles, masters and overrides of the given rows, each exactly |
| `Occurrences.AddOverrides` | internal/service/events.go:164-171 | the shown overrides join the list and every replaced start is noted |
| `Occurrences.AddSeries` | internal/service/events.go:172-198 | each series adds its overlapping starts that no override replaces; fails if and only if one cannot be expanded |
| `Occurrences.ExpandOne` | internal/service/events.go:172-198 | a series fails exactly when no room is left before it, its walk cannot reach the window's end, or it does not fit |
| `Occurrences.List` | internal/service/events.go:137-204 | for any table of valid rules, overrides off their series included: on success exactly the wanted lines, sorted, at most the limit; fails if and only if, in the order of the rows, a series cannot be expanded or more lines than the limit are left |
| `Occurrences.SortInOrder` | internal/service/events.go:210-217 | sorting gives the same lines ordered by start and id |
| `Occurrences.OrderDecides` | internal/service/events.go:210-217 | two ordered lists with the same lines are equal, so the result is unique |
| `Occurrences.ListedOnce` | internal/service/events.go:137-204 | where no two overrides replace one occurrence, each series and instance is listed at most once |
| `Occurrences.ShownMeans` | internal/service/events.go:72-82 | a timed event is shown if and only if some instant of it, or its start if it has no length, lies between the instants of the view, an all-day one by the days of the view |
| `Occurrences.LineShows` | internal/service/events.go:137-204 | no line is cancelled; a line of a series shows its text at the instant of an occurrence and for its length, any other line the row itself |
| `AllDay.LastStart` | internal/recurrence/series.go:91-117 | an upper bound of all starts that is a start or UNTIL itself; none only for an endless or too long rule |
| `AllDay.Span` | internal/recurrence/series.go:173-193 | the stored span covers every occurrence, and no all-day one is ever hidden by it |
| `AllDay.MarginSuffices` | internal/service/events.go:63-82 | the 14-hour margin covers the viewer's local days for any two offsets from -14h to +14h |
| `AllDay.SpanNeverHides` | internal/recurrence/series.go:173-193 | any all-day occurrence in the viewer's window passes the raw range test |
| `AllDay.TimedFound` | internal/exporter/exporter.go:238-244 | a timed event is in the window exactly when it passes the raw range test or has no length and lies at the window's start |
| `AllDay.LocalDaysShown` | internal/service/events.go:63-82 | an all-day event is shown if and only if one of its days is from the viewer's local day at the start of the view to the one at its last instant |
| `Limiter.RemainingExact` | internal/ratelimit/limiter.go:131-134 | Remaining, capped at the limit, is the number of single requests that would pass at once |
| `Limiter.RetryAfterExact` | internal/ratelimit/limiter.go:75-105 | after a wait the request passes if and only if it fits the burst and the wait is at least RetryAfter |
| `Limiter.ResetExact` | internal/ratelimit/limiter.go:75-105 | Reset is the least wait after which the key is idle, for admitted and refused requests |
| `Limiter.OversizedNeverPasses` | internal/ratelimit/limiter.go:75-105 | a request above the burst is refused again after its RetryAfter |
| `Limiter.IdleBurst` | internal/ratelimit/limiter.go:75-105 | from idle a burst passes if and only if that many intervals fit the period |
| `Limiter.BurstIsCount` | internal/config/types.go:96-101 | that burst is at least Count, and exactly Count if and only if the remainder is below the interval |
| `Limiter.RateHolds` | internal/ratelimit/limiter.go:75-105 | in every interval at most (period + length) / interval units are admitted |
| `Limiter.Limits.GrantsKeepRate` | internal/ratelimit/limiter.go:75-105 | that bound for every key of a limiter in any state its calls lead to |
| `Limiter.SameDecision` | internal/ratelimit/limiter.go:136-151 | the swept table decides as the key's whole history does |
| `Limiter.Limits.Expire` | internal/ratelimit/limiter.go:144-151 | drops exactly the idle keys |
| `Limiter.Limits.Sweep` | internal/ratelimit/limiter.go:136-142 | drops them every so many calls |
| `Limiter.Limits.Evict` | internal/ratelimit/limiter.go:153-170 | leaves room; evicts only from a full table, a tenth of it, those closest to idle |
| `Limiter.Limits.AllowN` | internal/ratelimit/limiter.go:75-105 | decides by the key's history alone, logs what it grants, keeps the table within its bound |
| `Limiter.Limits.Blocked` | internal/ratelimit/limiter.go:107-117 | agrees with what a request would be told |
| `Limiter.Limits.Reset` | internal/ratelimit/limiter.go:119-123 | forgets the key and nothing else |
| `SyncPull.ApplyKeeps` | internal/gsync/pull.go:208-413 | with each save a plain insert or replace by local id, no remote event makes the mapping many to one or breaks a unique index |
| `SyncPull.NothingReleased` | internal/store/pg/sync.go:147-154 | the store's save is the plain one where no other event is mapped to the remote one |
| `SyncPull.ReconcileKeeps` | internal/gsync/pull.go:91-104 | removes exactly the rows whose remote event the snapshot lacks |
| `SyncPull.PullKeeps` | internal/gsync/pull.go:131-166 | every pull keeps the mapping one to one by plain saves, and after a full one it names only what the snapshot has |
| `SyncPull.OrderedIs` | internal/gsync/pull.go:141-143 | the batch is applied whole, instances after everything else |
| `SyncEffects.CancelledGoes` | internal/gsync/pull.go:208-244 | an event deleted remotely is gone here with its overrides, waiting edit and mapping, and the mappings of its instances; every other event, edit and mapping is as it was |
| `SyncEffects.CancelledUnknown` | internal/gsync/pull.go:208-228 | a deleted one not known here changes nothing |
| `SyncEffects.InstanceGoes` | internal/gsync/pull.go:345-413 | after an instance was deleted remotely its override is gone with mapping and edit, its start is among the excluded ones of the series (up to 5000), and nothing else changed |
| `SyncEffects.ReconcileRemoves` | internal/gsync/pull.go:91-104 | exactly the events mapped to what the snapshot lacks, and the overrides of such series, are gone, their edits too |
| `SyncEffects.FullPullRemoves` | internal/gsync/pull.go:131-166 | after a full pull no event mapped to a remote one missing from the snapshot is left, and nothing else went |
| `SyncEffects.NewComesIn` | internal/gsync/pull.go:246-304 | a remote event not known here is afterwards mapped with its content and etag, on the unmapped event with its uid or on a new one; no other event, mapping or edit changes |
| `SyncEffects.UidCleaned` | internal/gsync/pull.go:247-250 | the uid that counts is the remote one without white space around it, none if longer than 1000 bytes |
| `SyncEffects.UidIfFree` | internal/gsync/pull.go:246-282 | a new event has the trimmed remote uid if and only if that is usable and free |
| `SyncEffects.UnreadableIgnored` | internal/gsync/pull.go:246-261 | an unknown event without a readable start changes nothing |
| `SyncEffects.DeletedHere` | internal/gsync/pull.go:306-343 | a mapped event deleted here is left alone while the deletion waits to be pushed, and otherwise comes in again |
| `SyncEffects.MappedRefreshed` | internal/gsync/pull.go:306-343 | a mapped event is untouched where the etag is the known one or a strictly later edit waits in a pushing binding; otherwise it takes the remote content, mark and etag and a waiting edit is dropped |
| `SyncEffects.InstanceComesIn` | internal/gsync/pull.go:385-399 | a changed instance not known here becomes an override of its series at its start, with the series' uid, no excluded starts, and read-only where either is |
| `SyncEffects.InstanceRefreshed` | internal/gsync/pull.go:361-383 | a changed instance known by its mapping or by the override at its start is brought up to date as an event is |
| `SyncEffects.InstanceDeletedHere` | internal/gsync/pull.go:306-343 | a mapped instance deleted here is left alone while the deletion waits, and otherwise unlinked |
| `SyncEffects.InstanceIgnored` | internal/gsync/pull.go:345-360 | instances of an unknown series or without a readable start change nothing |
| `SyncStore.Puller.LocalWins` | internal/gsync/pull.go:106-129 | only a waiting edit in a pushing binding can win, when strictly later; a lost one leaves the outbox |
| `SyncStore.Puller.Save` | internal/gsync/pull.go:201-206 | every save of a pull meets no other event mapped to the remote one, so the store releases nothing |
| `SyncStore.Puller.Create` | internal/gsync/pull.go:246-304 | adopts the unlinked event with the trimmed uid or inserts one, as the specification says |
| `SyncStore.Puller.Update` | internal/gsync/pull.go:306-343 | brings a mapped event up to date, as the specification says |
| `SyncStore.Puller.Exclude` | internal/gsync/pull.go:401-413 | excludes a start once, up to the cap |
| `SyncStore.Puller.ApplyInstance` | internal/gsync/pull.go:345-399 | applies an instance of a known series, as the specification says |
| `SyncStore.Puller.Apply` | internal/gsync/pull.go:208-228 | applies any remote event as `SyncPull.Apply` does; what then is gone, new or refreshed is said by `SyncEffects` |
| `SyncStore.Puller.RemoveLocal` | internal/gsync/pull.go:230-244 | removes event, overrides, waiting edit and mapping as `SyncPull.RemoveLocal` does; `SyncEffects.CancelledGoes` says that they are gone and nothing else is |
| `SyncStore.Puller.Reconcile` | internal/gsync/pull.go:91-104 | walks the mapping as read and removes what the snapshot lacks; `SyncEffects.ReconcileRemoves` says which events go |
| `SyncStore.Puller.PullEvents` | internal/gsync/pull.go:131-166 | the whole pull is the specified one, keeps the tables sound and after a full pull maps only to the snapshot |
| `SyncRepull.SecondStep` | internal/gsync/pull.go:246-399 | met a second time without its mapping, each item finds the event it made the first time |
| `SyncRepull.BothRun` | internal/gsync/pull.go:208-413 | a second run over the list stays in step with the first |
| `SyncRepull.RepullAdopts` | internal/gsync/pull.go:141-160 | a well-formed snapshot pulled, unmapped and pulled again inserts nothing and restores the same pairing, overrides and exclusions; every event then has the mark of its own item, and is unchanged if and only if it did not have the mark from its series alone |
| `SyncRepull.MarkIsLost` | internal/gsync/pull.go:376-399 | an editable instance of a read-only series is read-only after the first pull and editable after the second |
| `SyncPush.PushItemKeeps` | internal/gsync/push.go:33-57 | a push, whatever the remote side answers, keeps the mapping one to one and the tables sound |
| `SyncPush.PushAllKeeps` | internal/gsync/push.go:14-65 | and so does a whole push job |
| `SyncPush.PushTakes` | internal/gsync/push.go:81-182 | of all other events, a push takes the mapping of exactly the instances of what it deletes and of an event mapped to the remote one it wrote |
| `SyncPush.PushTakesNone` | internal/gsync/push.go:134-155 | the edit of a mapped event, or of one whose target nobody is mapped to, takes none away |
| `SyncEffects.DeletionPushed` | internal/gsync/push.go:81-111 | the remote event of one deleted here is cancelled under a new etag, no other remote event changed, and mapping, its instances' mappings and waiting edit are gone |
| `SyncEffects.DeletionIdle` | internal/gsync/push.go:100-103 | without a remote event the edit is just done |
| `SyncEffects.EventInserted` | internal/gsync/push.go:134-155 | a new event, or one whose remote side is gone, is on the remote side with exactly the local content under the id given out, and mapped to it with the new etag |
| `SyncEffects.EventPatched` | internal/gsync/push.go:134-155 | a remote event of the known etag, or of none, takes the local content under a new etag, which is the one mapped |
| `SyncEffects.LaterEditSent` | internal/gsync/push.go:157-182 | a strictly later edit is sent although the remote event changed |
| `SyncEffects.InstanceUnlinked` | internal/gsync/push.go:134-155 | an override whose remote instance is gone is unlinked and nothing is sent |
| `SyncEffects.ReadOnlySkipped` | internal/gsync/push.go:112-114 | a read-only event is not pushed and its edit leaves the outbox |
| `SyncEffects.OverrideWaits` | internal/gsync/push.go:33-57 | an unmapped override waits for its series and is dropped at the twentieth try |
| `SyncEffects.OverrideSent` | internal/gsync/push.go:115-155 | with its series mapped it is sent to the remote instance found |
| `SyncPush.Pusher.ResolveEvent` | internal/gsync/push.go:157-182 | the later side wins: the remote event is taken over or overwritten, as the specification says |
| `SyncPush.Pusher.Push` | internal/gsync/push.go:81-155 | deletes, inserts, patches or resolves one waiting edit as `SyncPush.PushEvent` does; what then is on either side is said by `SyncEffects` |
| `SyncPush.Pusher.HandlePush` | internal/gsync/push.go:14-65 | the loop is the specified sequence of turns, does nothing in a pull-only binding and keeps the tables sound |
| `SyncConflict.SendDecides` | internal/gsync/push.go:134-182 | one push decides an open conflict, for the local side if it is later, the remote never changed or no etag is known |
| `SyncConflict.LandOpen` | internal/gsync/pull.go:306-343 | applying the remote version decides an open conflict exactly when the local edit is not later |
| `SyncConflict.LandStale` | internal/gsync/pull.go:306-343 | a version older than the push that lands after it puts the beaten content back on this side only |
| `SyncRuns.EveryOrderConverges` | internal/gsync/pull.go:131-166 | after any interleaving of pulls by token, failures, losses and pushes, one more push and pull leave the winner's content on both sides, equal etags, nothing waiting and nothing else changed, the local edit winning exactly when strictly later or alone, if and only if the pull fetches everything or the pushed version was not overlooked |
| `SyncRuns.OneByOneConverges` | internal/gsync/pull.go:29-63 | while pulls run one at a time nothing is overlooked, so they always settle the conflict |
| `SyncRuns.StaysOverlooked` | internal/gsync/pull.go:131-166 | an overlooked version stays away: no push and no pull by token changes either side |
| `SyncRuns.OvertakenStaysApart` | internal/gsync/pull.go:57-62 | the run of two overlapping pulls after which the sides differ for good |
| `SyncRuns.StaleFetchReturns` | internal/gsync/pull.go:131-166 | the run in which a stale fetch makes the two sides differ |
| `SyncRuns.ExampleClashes` | internal/gsync/pull.go:306-343 | such conflicts exist, won by either side: a concrete one |
| `SyncRuns.ConfluentExactly` | internal/gsync/pull.go:106-129 | pull then push and push then pull agree if and only if an etag is known, the local edit is later or both edits are the same |
| `Jobs.ReapWorks` | internal/jobs/worker.go:50-55 | reaping after dropping goes through if and only if no two stale jobs without a queued twin share a key |
| `Jobs.SlackExact` | internal/jobs/worker.go:29-30 | a worker may still hold a job stale by a cutoff if and only if the cutoff is less than 605 seconds ago, so that the 900 seconds waited leave 295 for clocks that differ |
| `Jobs.StepKeeps` | internal/jobs/worker.go:37-58 | every statement, crash and passing of time keeps the invariants |
| `Jobs.EveryRunSafe` | internal/jobs/worker.go:170-226 | over every run at most one row per kind and key is queued and no job is held by two workers, with clocks up to 295 s out |
| `Jobs.DeletedForAReason` | internal/jobs/worker.go:212-226 | a row goes only when its worker finished it, for a twin still queued, or after a refused write for a twin that waits or was taken up since |
| `Jobs.TwinTakenBetween` | internal/jobs/worker.go:221-225 | a run from the empty table in which the twin is claimed between the two statements |
| `Jobs.LostPairStays` | internal/jobs/worker.go:50-55 | two stopped jobs with one key stay as they are, whatever given-up jobs have it too, until a job with their key is enqueued or a reap finds only one stale |
| `Jobs.LostPairFreed` | internal/jobs/worker.go:50-51 | after one more job, dropping stale jobs removes both if and only if that job has their key |
| `Jobs.CrashedPairStays` | internal/jobs/worker.go:271-282 | a run from the empty table to two stopped jobs with one key, which stay over every further run that frees neither |
| `JobStore.Queue.Enqueue` | internal/jobs/jobs.go:28-30 | inserts unless a twin is queued |
| `JobStore.Queue.Claim` | internal/jobs/worker.go:38-43 | takes a due job of the highest priority, due longest among equals, or reports that none is due |
| `JobStore.Queue.Finish` | internal/jobs/worker.go:170-226 | success deletes; a failure that is not final and has no queued twin leaves the job queued at the given time with its tries; a final one leaves it failed; the row is deleted when the index refuses |
| `JobStore.Queue.Reap` | internal/jobs/worker.go:271-282 | drops and requeues; no stale job is left unless two share a key |
| `JobLife.EnqueueAdds` | internal/jobs/jobs.go:28-30 | a job enqueued waits untried and can be claimed from its time on; a twin of a queued one is not added |
| `JobLife.ClaimTakes` | internal/jobs/worker.go:37-43 | a claimed job runs, locked from now, with one more try, and is otherwise the same |
| `JobLife.FailedIsRetried` | internal/jobs/worker.go:212-226 | a failed job that may be tried again is queued with the given time, tries and all else as they were, and claimable from then on; the write is refused if and only if another job with its key is queued |
| `JobLife.GivenUp` | internal/jobs/worker.go:212-226 | a job given up stays as failed and nobody claims it |
| `JobLife.ReapRequeues` | internal/jobs/worker.go:50-55 | a stale job goes if and only if a job with its key is queued; otherwise, unless two stale ones share a key, it is queued again, claimable at once with the tries it had; jobs that are not stale stay as they are |
| `JobLife.EveryStepMoves` | internal/jobs/worker.go:37-58 | in every reachable state a row leaves the queue only by a claim when due and a running one gets back only by its own failed worker or a reap of an expired lock; a failed one never moves; each claim counts one try |
| `JobLife.FailedStays` | internal/jobs/worker.go:37-58 | over every run a failed job stays as it is |
| `JobLife.AttemptsAreClaims` | internal/jobs/worker.go:37-43 | over every run from the empty table the tries of a row are the number of its claims |
| `Idempotency.EveryRunOnce` | internal/api/idempotency.go:57-107 | in every interleaving with crashes and lost writes at most one run ends with 2xx, a running request holds the key alone and the stored hash is of that request only, and every replay is what that one run answered to the same request |
| `Idempotency.LaterRequests` | internal/api/idempotency.go:77-92 | once a reply is saved the same request gets exactly it and a different one is refused |
| `Idempotency.AnswerStored` | internal/api/idempotency.go:93-104 | a 2xx answer is what the record then holds, any other frees the key |
| `Idempotency.MeanwhileInFlight` | internal/api/idempotency.go:83-91 | while a request runs, the same one again is told so |
| `Idempotency.FreeKeyRuns` | internal/api/idempotency.go:77-92 | a request runs its handler if and only if the key is free |
| `Idempotency.LostSaveBlocks` | internal/api/idempotency.go:98-104 | a taken key nobody holds is never run or changed again |
| `Idempotency.HashTellsApart` | internal/api/server.go:119-126 | on the routes under the middleware two requests have one hash if and only if they are the same |
| `Idempotency.DifferentRefused` | internal/api/idempotency.go:83-91 | a request that differs from the one that holds the key or was answered is refused |
| `IdempotencyStore.Store.ClaimKey` | internal/store/pg/idempotency.go:22-28 | first come, first served; no other key changes |
| `IdempotencyStore.Store.SaveKey` | internal/store/pg/idempotency.go:48-51 | stores the reply under an existing key |
| `IdempotencyStore.Store.DropKey` | internal/store/pg/idempotency.go:55-58 | frees the key |
| `IdempotencyStore.Store.Serve` | internal/api/idempotency.go:40-105 | runs the handler exactly for a free, short enough key of a known user; stores a 2xx reply, frees the key otherwise, answers from the record when it is taken |
| `Notes.Print` | internal/google/notes.go:17-36 | the builder loop prints the notes the specification describes |
| `Notes.Parse` | internal/google/notes.go:38-62 | the backward scan and the forward loop read what the specification describes |
| `Notes.CheckLineReads` | internal/google/notes.go:10-33 | a printed entry is read back with its words and mark unless it is blank, and is never a separator |
| `Notes.CollapseKeepsWords` | internal/google/notes.go:33 | collapsing keeps the words in order and is idempotent |
| `Notes.RoundTrip` | internal/google/notes.go:17-62 | for every body, notes with at least one entry read back as the trimmed body with uniform line ends and the collapsed entries, if and only if no entry is blank |
| `Notes.BodyAloneExactly` | internal/google/notes.go:17-62 | a body without entries reads back if and only if it is not a separator followed by blank lines and at least one entry only |
| `Notes.BodyAloneMayBeRead` | internal/google/notes.go:19-21 | a body that is itself printed notes does not survive without entries |
| `Notes.NotesLookLike` | internal/google/notes.go:8-36 | the printed text of a body and an entry is literally the trimmed body, a blank line, a line of three dashes and the entry after a bracketed x or blank |
| `Notes.MarksRead` | internal/google/notes.go:10-62 | a line with a bracketed x or X before a text is read as that text done, one with a bracketed blank as not done |
| `Notes.DashesSeparate` | internal/google/notes.go:38-62 | text, a line of three dashes and one entry line read back as that body and entry |
| `Dedup.BuildGroups` | internal/dedup/dedup.go:188-195 | each key's group is exactly the items with that key, in order |
| `Dedup.Finder.PairUp` | internal/dedup/dedup.go:196-204 | a pair is considered once, smaller id first, and recorded unless dealt with before |
| `Dedup.Finder.PairGroups` | internal/dedup/dedup.go:205-218 | in any order of the groups, every head is paired with its whole group |
| `Dedup.Finder.PairSimilar` | internal/dedup/dedup.go:219-241 | every similar pair within the window is found, although the scan stops early |
| `Dedup.Finder.Find` | internal/dedup/dedup.go:157-185 | every pair is backed by two items that match, none twice, at most 500; a whole scan misses none, and a scan is cut short only at 500 pairs or by a failed lookup |
| `Dedup.HandleScan` | internal/dedup/dedup.go:127-148 | each pair is put up for review or loses its second member, as the policy says |
| `Dedup.FlagOnlyReviews` | internal/domain/dedup.go:45-53 | under flag nothing is removed and every pair is put up for review |
| `Dedup.RemovalClearsReview` | internal/dedup/dedup.go:127-148 | a removal takes the pairs under review with the removed item away and no others |
| `Dedup.SimilarMeans` | internal/dedup/dedup.go:219-241 | similar items are both timed or both all-day, have titles found alike and start at most a quarter of an hour apart |
| `Dedup.WhatIsLeft` | internal/dedup/dedup.go:130-146 | what survives is what is no pair's doomed second member, whatever the order of the pairs |
| `Dedup.SmallestStays` | internal/dedup/dedup.go:288-294 | the smallest item of a connected component is never removed |
| `Dedup.ExactLeavesSurvivor` | internal/domain/dedup.go:45-53 | under auto_exact every removed item leaves one with the same uid, if the scan is up to date |
| `Dedup.ExactSurvivors` | internal/dedup/dedup.go:127-148 | one with that uid is left if and only if some scanned one still existed and is second in no pair by uid |
| `Dedup.PrintLeavesRelative` | internal/domain/dedup.go:45-53 | under auto_fingerprint every removed item leaves one it is linked to by a chain of equal uids and fingerprints |
| `Dedup.PrintSurvivors` | internal/dedup/dedup.go:127-148 | one sharing uid or fingerprint is left if and only if some scanned one still existed and is second in no such pair |
| `Dedup.OutdatedScanLeavesNone` | internal/dedup/dedup.go:120-148 | if the partner is deleted between scan and removal none is left |
| `Dedup.PrintsDoNotChain` | internal/domain/dedup.go:45-53 | under auto_fingerprint an item can go although nothing left shares its uid or fingerprint |
| `Dedup.ReviewOfRemoved` | internal/dedup/dedup.go:130-146 | a pair with a removed item can still be put up for review |

## Left out

- Calendar-field rules (BYDAY, BYMONTHDAY), daylight saving and the rule parser: `Recurrence` takes any ordered stream, `Rules` fixed steps in UTC.
- Instants below a second: a split sets UNTIL one second before the cut, so an occurrence in that last second would be lost.
- EventEdits.ApplyPatch: models title, status, all-day flag, times and recurrence only; calendars, time zones, reminders and versions do not touch the properties proved. The table is one calendar: moving a series to another one, which its uid may also prevent, is not modelled.
- EditEffects.PatchAccepts: the title of a patch is taken to be trimmed and at most 1000 characters long.
- EditEffects.CreateStores: starts from the new event itself; reading it from the request, with a default end and calendar, is not modelled.
- The instant in the uid of a series split off is written in digits instead of as a date and time; both tell instants apart.
- Limiter.Limits.AllowN: the call counter does not wrap at 2^64, and calls come in the order of the clock.
- SyncRuns.EveryOrderConverges: follows one event; a full pull also removes events the snapshot lacks, which `SyncPull.PullKeeps` covers. A local event with status cancelled, which is pushed as a cancelled remote one, is not modelled; the content itself is opaque and its conversion loses nothing.
- Further edits on either side while a conflict is being settled, edits against remote deletions, tasks, network errors and crashes between a Google call and its commit.
- The remote calendar's own rules: a cancelled event counts as gone, and the answer to an instance lookup is arbitrary.
- Dedup.ExactLeavesSurvivor: asks that the first members of the pairs still exist; without that none may be left, as `Dedup.OutdatedScanLeavesNone` shows; `Dedup.ExactSurvivors` has the exact condition.
- Jobs.DeletedForAReason: the row of a failed job may go while its twin is no longer queued but claimed, as `Jobs.TwinTakenBetween` shows.
- The random part and the doubling of the job backoff, notification of workers and the drain at shutdown.
- Idempotency.EveryRunOnce: records are retained; after a record expires the handler may run again. The hash is taken to be free of collisions, and query strings are not part of it.
- Notes.RoundTrip: strings that are not valid UTF-8.
- The database itself: tables are maps, statements are atomic, and transactions that fail leave nothing.
- HTTP handlers, import and export, search, mail, the Telegram bot, authentication and configuration.
