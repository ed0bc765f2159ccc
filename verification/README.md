# Kronos: the sleep schedule and the sleep ledger

Kronos is a Kubernetes controller that puts workloads to sleep outside working hours. It scales
Deployments, StatefulSets and ReplicaSets to zero and suspends CronJobs, keeps each object's old value
as a record in a Secret, and replays the records when the working hours begin. This project models the
two halves of that controller, proves when each of them keeps its promise, and what they do together over an
endless chain of reconciles in which calls may fail.

**The schedule.** `Calendar`, `Text`, `Weekdays`, `HolidayDates` and `Holidays` read the user's fields:
clock times, weekday lists and holiday dates. `Schedule` builds the sleep window around an instant, decides,
and picks the instant of the next look. `Stability` says exactly when the decision can be trusted until that
instant, for every configuration; `Looks` follows the endless chain of looks; `SleepSchedules` holds the
methods that read a KronosApp and decide.

**The ledger.** `Resources` has the objects and records, `Passes` the sleep pass and the wake pass as
functions of a world: live objects, stored Secret and a `fate` that answers every API call with granted,
refused, or lost (an error although the update happened). `Conservation` says exactly when the original value
of every object stays readable; `Runs` takes that to whole runs with edits by others; `FaultFree` and `Repeats`
treat runs without failures, the round trip, recovery, repetition and restart; `Outcomes` says what a pass with
failing calls has done to each object and what it reports; `Fates` compares the same pass under other answers;
`Values` says in replica counts and suspend flags what it means to be put to sleep.

**The controller.** `ApiServer` is the client as a class whose calls may fail, `Controller` the loops over
items and records, `Fetch` the selection of included objects, `Reconciler` one reconcile, and `Machine` the
endless chain of reconciles, where schedule and ledger meet.

An instant is a number of nanoseconds since the local midnight that starts 0000-01-01; a day is that number
divided by 24 hours. Every modelled loop of the source is a method proved against a function of its inputs or of
the old state, and the lemmas are about those functions. Orders that Go leaves open (ranging over a map, the order
of a listing) are arbitrary choices inside the methods, so what they ensure holds for every order.

Below, unless a line says otherwise, the Secret holds distinct records filed under their own kinds, and the
included objects of a pass are what the fetch returns: per kind, current values, each object once.

## Main results

- `Machine.ReconcileInForce`: in an endless chain of reconciles without edits by others, in which any calls may
  fail but no retried sleep pass has scaled an object down without landing its record, every original value is
  kept. At an instant whose last reconcile is not to be retried, was at a steady instant and had nothing that can
  fail unnoticed, the included objects sleep, or every object has its original value, as the ideal schedule says;
  excepted is at most the latency after a change point. `Machine.ClusterFollowsSchedule` names chains that are
  always steady: no force flag, an overnight window or all weekdays without holidays, no retries, and a latency
  shorter than the wake period, from the first look on, or the second when the first is at a start; and
  `Machine.UserSees` says the same of them in plain values.
- `Stability.StableExactlyWhenSteady`: for every configuration and instant, the decision holds until the
  deadline if and only if a condition holds that reads the configuration and the clock alone.
- `Conservation.SleepPassConserves`: whatever calls fail, a sleep pass over current lists keeps every original
  value if and only if it never scales an object down without landing its record.
- `Runs.OriginalIsIntended`: in every run whose sleep passes meet that condition, whatever else fails, an object's
  record, or its live value without a record, is the value last given to it by others while it had no record;
  with `Repeats.RunThenWake`, one wake that succeeds gives every object that value back.
- `Outcomes.IncludedSleeps`: whatever calls fail in a sleep pass that ends without an error, an included object
  sleeps afterwards if and only if it slept before, or had no record and its own scale-down happened.
- `Reconciler.NoRetryLosesNothing`: whatever calls fail, a reconcile that asks for no retry has lost no original
  value. To wake, it has restored every object. To sleep, it has recorded exactly the included objects of each
  included kind (a kind without any is skipped and keeps its records), and they all sleep if and only if the
  condition of `Outcomes.IncludedSleeps` holds of each.
- `Reconciler.TrustedExactlyWhenExposed`: coming back from a sleep pass means that every included object sleeps,
  under every pattern of failing calls, if and only if every awake included object is the last one without a
  record of its kind (or no pass can end without an error, because the object of a dropped record is gone).
- `SleepSchedules.Decide`: the decision and the next look, by the user's own fields, for every instant and every
  spec whose weekdays and dates the webhook accepts or fills in.
- `Values.ScaledToZero`: whatever calls fail in a sleep pass that ends without an error, the value of every
  included object afterwards, in replica counts and suspend flags.
- `Fetch.FetchedExactly`: what a reconcile acts on, object by object, for every list of entries.
- `Reconciler.StopsExactlyWhen`: a reconcile ends the chain if and only if it puts to sleep, no error ends the
  pass, and in some kind the last included object without a record is awake and its scale-down is not confirmed.
- `Holidays.CheckConsecutiveDates` with `Holidays.FirstFreeUnique`: the recursion over the sorted dates computes
  the first later day that is no holiday.

## What the proofs bring to light

- A look exactly at the start of a window skips the end of that window (`Schedule.RequeueIsNextBoundary`). A
  window by day with a partial week can be wrong from midnight on (`Stability.FridayEveningIsNotSteady`).
- New objects are scaled down before their records are written. When the write is refused, or the wake of a
  dropped record fails first, the original value is gone (`Outcomes.OriginalAfterKind` says for which objects,
  `Outcomes.FailedWakeLoses` gives one). `Outcomes.RefusedWriteLoses` and `Outcomes.RetryRecordsZero` follow one
  Deployment: scaled to zero, recorded as zero by the retry, and left at zero by the wake.
- A refused scale-down can end the chain: the reconcile asks neither to come back nor to be retried
  (`Reconciler.RefusedScaleDownStops`). It can also be hidden: a kind reports at most the name of its last new
  object (`Outcomes.ReportsExactlyLast`), so a second new object makes the reconcile report success
  (`Reconciler.SecondHidesFirst`). Either way the object is recorded, and no sleep pass tries it again while it
  stays recorded and included (`Outcomes.RecordedNeverTouched`). When every awake included object is the last new
  one of its kind, coming back does mean that the decision is applied, and under no weaker condition on the lists
  (`Reconciler.ComingBackMeansApplied`, `Reconciler.TrustedExactlyWhenExposed`).
- Two holiday entries of one name: only the later one counts (`HolidayDates.ReplacedEntryDropsDay`).
- The defaulting webhook fills in "*" for missing weekdays, and the validating one refuses it
  (`Weekdays.StarIsRefused`).
- Without the webhook, a date with fewer than two dashes indexes a part that does not exist
  (`HolidayDates.ExtractDatesFromHoliday`), and a weekday range up to the largest integer never ends
  (`Weekdays.ExtractWeekdays`).
- An entry with `includeRef` and no `excludeRef` includes nothing (`Fetch.IncludeAloneSelectsNothing`): the
  empty pattern matches every name, and the default that would replace it is assigned to a loop copy. Equal
  references that are not empty make the fetch dereference nil (`Fetch.FetchIncludedObjects`).
- `apiVersion: "*"` with a concrete kind includes all four kinds (`Fetch.FetchesWhatItNames`).
- The repository's README describes `weekdays: "1-5"` with an overnight window as sleeping on weekdays from
  evening to morning. The code also sleeps all day on every other weekday; the model follows the code.

## Model

| member | source | states |
|---|---|---|
| `Calendar.DayNumberInjective` | internal/controller/scheduling.go:187-192 | two civil dates with the same day number are the same date, so comparing year, month and day compares days |
| `Calendar.CalendarDays` | internal/controller/scheduling.go:38 | the days of the calendar: the lengths of the months, and 29 February in leap years |
| `Calendar.DateRoundTrip` | internal/controller/scheduling.go:38 | the date shown on the day that a parsed date denotes is the parsed date |
| `Calendar.WeekdayByCongruence` | internal/controller/scheduling.go:246-249 | the weekday of every civil date is the one of Zeller's congruence on year, month and day |
| `Calendar.IsItSameDay` | internal/controller/scheduling.go:187-192 | true exactly when both instants fall on one day |
| `Text.SplitJoins` | internal/controller/scheduling.go:33-35 | splitting loses nothing and no part holds the separator |
| `Text.ItoaReads` | internal/controller/scheduling.go:130 | reading a number that was written gives the number, so no two numbers are written alike |
| `Weekdays.AcceptedIsPattern` | api/v1alpha1/kronosapp_webhook.go:128-135 | the accepted lists are a day 1 to 7, or an accepted list, a dash or a comma, and a day |
| `Weekdays.ItemsAreListed` | internal/controller/scheduling.go:115-138 | splitting an accepted list and reading each item yields exactly the days named by the characters: single days, and ranges by the first two numbers of a dashed item |
| `Weekdays.ExtractWeekdays` | internal/controller/scheduling.go:115-138 | for every string without a range up to the largest integer: "*" gives all seven days, and otherwise a number is in the set exactly when an item names it; an accepted list gives exactly the days it means, all in 1 to 7 |
| `Weekdays.StarIsRefused` | api/v1alpha1/kronosapp_webhook.go:128-135 | the weekday default "*" is no list the validation accepts |
| `Weekdays.AddRange` | internal/controller/scheduling.go:129-131 | adds exactly the numbers of the range, none when reversed, for a range that ends before the largest integer |
| `Weekdays.MapWeekdays` | internal/controller/scheduling.go:140-158 | in whatever order the set is read, every matching weekday is in the list once and nothing else is |
| `Weekdays.ListedWeekdays` | internal/controller/scheduling.go:115-158 | for an accepted list, Go's weekday comes out of the two functions exactly when the list means it |
| `HolidayDates.AcceptedIsPattern` | api/v1alpha1/kronosapp_webhook.go:137-149 | the accepted entries are a date, or an accepted entry, a slash and two digits |
| `HolidayDates.PartsParse` | internal/controller/scheduling.go:31-45 | for every accepted entry the indexed parts exist and each assembled date parses to the day its digits stand for |
| `HolidayDates.ExtractDatesFromHoliday` | internal/controller/scheduling.go:31-45 | for every string: out of range exactly with fewer than two dashes, else an error when some day of the third part does not parse and otherwise one date per day in order; for an accepted entry an error when some listed day is not in the calendar, else one midnight per day in order |
| `HolidayDates.DenotesItsDays` | internal/controller/scheduling.go:31-45 | an accepted entry denotes dates exactly when each of its days is in the calendar, and then the midnights of its days in order |
| `HolidayDates.OneMonth` | internal/controller/scheduling.go:31-45 | every date of an accepted entry is the midnight of its own day, all in one year and month |
| `HolidayDates.ExtractHolidays` | internal/controller/scheduling.go:47-57 | for accepted entries: fails exactly when some entry fails; each name keeps the dates of its last entry |
| `HolidayDates.HolidaysInForce` | internal/controller/scheduling.go:47-57 | a day is a holiday exactly when an entry that no later entry of its name replaces lists it |
| `HolidayDates.DistinctNamesKeepAll` | internal/controller/scheduling.go:47-57 | with distinct names every listed day is a holiday |
| `HolidayDates.ReplacedEntryDropsDay` | internal/controller/scheduling.go:50-51 | a listed day is dropped exactly when every entry listing it is replaced |
| `HolidayDates.EidIsDropped` | internal/controller/scheduling.go:50-51 | a concrete accepted list of two entries of one name: the day of the first is no holiday of any map the source may build |
| `Holidays.SortSorts` | internal/controller/scheduling.go:180-182 | the sort is the ascending rearrangement of the dates |
| `Holidays.RemoveRedundancy` | internal/controller/scheduling.go:160-173 | an ascending list keeps one instant of each of its days, in order |
| `Holidays.GetAllHolidaysDates` | internal/controller/scheduling.go:175-185 | in whatever order the map is read, all holiday days ascending, one instant each |
| `Holidays.FirstFreeUnique` | internal/controller/scheduling.go:194-212 | the first later day outside the set is the only day with that description |
| `Holidays.CheckConsecutiveDates` | internal/controller/scheduling.go:194-212 | the loop and recursion give the rest of the target's day plus 24 hours per further consecutive date, measured by the first free day |
| `Holidays.IsItHoliday` | internal/controller/scheduling.go:214-231 | flag and wait depend on the set of days only: now plus the wait is the midnight of the first later day that is no holiday |
| `Holidays.WaitBounds` | internal/controller/scheduling.go:194-212 | the holiday wait is positive, at most 24 hours per distinct day, and fits 64 bits for up to 106751 days |
| `Schedule.DecidesIdeally` | internal/controller/scheduling.go:59-96 | comparing now with the normalised window is, at every instant, the ideal schedule: holidays, weekdays and the open cyclic clock interval |
| `Schedule.WindowShape` | internal/controller/scheduling.go:80-86 | the window has the configured clock times, is shorter than a day, and is reversed only when now is exactly the end of an overnight window |
| `Schedule.DeadlineByClock` | internal/controller/scheduling.go:261-272 | on a day that is no holiday, the next look by day and clock time alone |
| `Schedule.WaitMakesProgress` | internal/controller/scheduling.go:261-272 | every wait is positive, at most 24 hours on a working day and 24 hours per holiday otherwise |
| `Schedule.RequeueIsNextBoundary` | internal/controller/scheduling.go:261-272 | on a day that is no holiday, the next look is the next start or end of a window, if and only if now is not a start that has an end of its own |
| `Stability.StableExactlyWhenSteady` | internal/controller/kronosapp_controller.go:96-107 | for all configurations and instants, the decision holds until the deadline if and only if the steadiness condition holds |
| `Stability.UnsteadyIsSpoiled` | internal/controller/scheduling.go:233-272 | an instant before the deadline at which an unsteady decision is wrong |
| `Stability.OvernightIsStable` | internal/controller/scheduling.go:233-272 | without force flags, overnight windows with any weekdays and holidays are stable unless now is the start |
| `Stability.EveryDayIsStable` | internal/controller/scheduling.go:233-272 | without force flags, all weekdays and no holidays: any window is stable unless now is the start |
| `Stability.FridayEveningIsNotSteady` | internal/controller/scheduling.go:267-269 | a concrete day window with a working week that is wrong before the deadline |
| `Looks.OneInForce` | internal/controller/kronosapp_controller.go:151-173 | in a chain of increasing looks, at every instant from the first on, exactly one look is the last one not after it |
| `Looks.DecisionFollowsIdeal` | internal/controller/kronosapp_controller.go:151-173 | the decision of a stable look in force is the ideal one, except at most the latency after a change point |
| `Looks.NoStretchSkipped` | internal/controller/kronosapp_controller.go:151-173 | when every look of a punctual chain is stable, every stretch longer than the latency on which the ideal schedule is constant has its decision in force at some moment |
| `Looks.ChainIsStable` | internal/controller/kronosapp_controller.go:96-107 | in a prompt chain without force flags, with an overnight window or every day, every look but a first one at a start is steady and stable |
| `SleepSchedules.EveryClockIsWritten` | internal/controller/scheduling.go:22-29 | every hour and minute of the day is read back from its text in nanoseconds, with or without the leading zero of the hour |
| `SleepSchedules.OnlyClocksAreRead` | internal/controller/scheduling.go:22-29 | every string that is read writes an hour below 24 and a minute below 60 in one of these two ways |
| `SleepSchedules.NewSleepSchedule` | internal/controller/scheduling.go:59-96 | for weekdays and dates the webhook accepts or fills in: fails exactly when the zone is unknown, a clock field is no clock time or an entry lists a day that is not in the calendar; otherwise holds the window of the two clock fields around now, and the weekdays and holidays that the user's strings mean |
| `SleepSchedules.IsTimeToSleep` | internal/controller/scheduling.go:233-259 | holiday flag, decision and wait are those of the configuration, with holidays before forced sleep before forced wake |
| `SleepSchedules.Decide` | internal/controller/kronosapp_controller.go:86-108 | by the user's fields, the day and the clock time: when the schedule is valid, when the decision is asleep (holiday, then forced sleep, then forced wake, then a weekday that is not named or a clock strictly inside the cyclic interval), and the instant of the next look |
| `SleepSchedules.WrittenClocksDecide` | internal/controller/scheduling.go:59-96 | fields that write h1:m1 and h2:m2, no force flags, a named weekday and no holiday: asleep exactly when the clock is strictly inside the cyclic interval from the one to the other |
| `SleepSchedules.SomeLists` | internal/controller/scheduling.go:120-136 | "1-3-5" lists 1 to 3, "5-1" lists nothing, and "1,6-7" lists 1, 6 and 7 |
| `SleepSchedules.SaturdayNoonSleeps` | internal/controller/scheduling.go:244-258 | with weekdays 1-5 and a window from 18:00 to 20:41, Saturday 13 April 2024 at noon is asleep |
| `Resources.IndexFindsKey` | internal/controller/objects.go:328-335 | among records of one kind, searching name and namespace finds exactly the key's record |
| `Resources.RemovesOne` | internal/controller/objects.go:337-353 | removing a record keeps all others and nothing else |
| `Passes.WakesWrite` | internal/controller/objects.go:558-571 | a wake of distinct records that succeeds has given every recorded object its recorded value |
| `Passes.WakeStops` | internal/controller/objects.go:564-569 | a wake of distinct records that fails has written the records before one of them, whose object is missing or had a call that was not granted, and touched no object after it |
| `Passes.WakesTouchTheirs` | internal/controller/included-objects/object.go:147-153 | a wake, however it ends, changes no other object and no record |
| `Passes.ScanTouchesNew` | internal/controller/objects.go:371-386 | the item loop changes new objects only, and only to their dormant value |
| `Passes.ScanLosesNothing` | internal/controller/objects.go:371-386 | kept and left-over records together are the old records, for all lists |
| `Passes.ScanSplits` | internal/controller/objects.go:371-386 | kept are the old records of included objects, left over for waking the others, new the included objects without one |
| `Passes.ScanStaysDistinct` | internal/controller/objects.go:397-398 | the rewritten list has exactly one record per included object |
| `Conservation.SecretAfter` | internal/controller/objects.go:388-403 | the stored list is replaced exactly when the dropped wakes succeed and the write is not refused |
| `Conservation.SleepKindConserves` | internal/controller/objects.go:360-404 | whatever fails, one kind keeps every original value if and only if its records land or nothing was scaled down |
| `Conservation.RecordedLeftAlone` | internal/controller/objects.go:382-385 | the block of one kind does not touch an included object that has a record |
| `Conservation.SleepPassConserves` | internal/controller/objects.go:355-542 | whatever fails, the whole pass keeps every original value if and only if no kind it reaches scales an object down without landing its record |
| `Conservation.OrderReadsAll` | internal/controller/objects.go:544-556 | in any order of kinds, exactly the stored records are read, each once |
| `Conservation.WakePassConserves` | internal/controller/kronosapp_controller.go:154-169 | waking keeps every original value wherever it stops and whether or not the purge lands |
| `Conservation.FinishedPass` | internal/controller/objects.go:355-542 | a pass that ends without an error, whatever failed on the way, has lost nothing and saved exactly the included keys of each included kind |
| `Runs.OriginalIsIntended` | internal/controller/kronosapp_controller.go:129-174 | over every run of passes and edits in which each sleep pass works on current lists and never scales an object down without landing its record, record or else live value is the value last given while unrecorded |
| `Runs.NeverIncludedUntouched` | internal/controller/objects.go:355-571 | an object neither recorded nor ever included is untouched by every run, whatever fails |
| `Runs.RecordsNeverOverwritten` | internal/controller/objects.go:378-403 | over every run, whatever fails and whatever others edit, a record that stays keeps the value it was made with |
| `FaultFree.GrantedSleepPass` | internal/controller/objects.go:361-403 | without failures, from a state with all recorded objects asleep, the saved keys of each included kind equal the included keys, recorded objects sleep and originals stay |
| `FaultFree.GrantedWakePass` | internal/controller/kronosapp_controller.go:154-169 | without failures, from a state whose recorded objects exist and sleep, waking restores every original value and empties the Secret |
| `FaultFree.ReachableIsTidy` | internal/controller/objects.go:371-404 | in a run without failing calls and without edits of recorded objects, from a tidy start, every reachable state files distinct records under their own kind and has every recorded object asleep |
| `FaultFree.SleepThenWake` | internal/controller/kronosapp_controller.go:129-174 | without failing calls and edits, from an empty Secret, any sleep passes over changing lists, then one wake, give back the starting cluster and an empty Secret |
| `Outcomes.ReportsExactlyLast` | internal/controller/objects.go:371-386 | for all lists: the loop reports the name of its last new item exactly when putting that item to sleep fails, and no other name |
| `Outcomes.ItemAfterKind` | internal/controller/objects.go:360-404 | whatever fails, one kind's block leaves an included object at the dormant value exactly when it was awake, had no record and its own scale-down happens, else at the value it had |
| `Outcomes.OriginalAfterKind` | internal/controller/objects.go:360-404 | an awake new object loses its original value to the dormant one exactly when its scale-down happens and the records do not land |
| `Outcomes.KindReports` | internal/controller/objects.go:378-403 | a block that succeeds reports a name exactly when the last included object without a record is awake and its scale-down is not confirmed |
| `Outcomes.PassReports` | internal/controller/objects.go:355-542 | a pass without an error reports exactly the kinds whose last new object fails that way |
| `Outcomes.IncludedSleeps` | internal/controller/objects.go:355-542 | after a pass without an error an included object is recorded, and sleeps exactly when it slept before, or had no record and its own scale-down happened |
| `Outcomes.AppliedWhenAllSlept` | internal/controller/objects.go:355-542 | such a pass has put all included objects to sleep exactly when that holds of each of them |
| `Outcomes.NothingHidden` | internal/controller/objects.go:378-381 | when every awake included object is the last one without a record of its kind, a pass without an error and without a report has put every included object to sleep |
| `Outcomes.RecordedNeverTouched` | internal/controller/objects.go:382-385 | while it stays included, a recorded object stays recorded and keeps its live value through every sequence of sleep passes, whatever fails |
| `Outcomes.RefusedWriteLoses` | internal/controller/objects.go:378-403 | one Deployment, the Secret write refused: its original value turns from its count into zero |
| `Outcomes.RetryRecordsZero` | internal/controller/objects.go:378-403 | for a Deployment at zero without a record, a sleep pass without failures records the zero and a wake leaves it at zero |
| `Outcomes.PassStops` | internal/controller/objects.go:355-542 | a pass that ends with an error has recorded the included objects of the kinds before the one it failed at, in the order Deployment, StatefulSet, CronJob, ReplicaSet, and changed nothing of the kinds after it |
| `Outcomes.FailedWakeLoses` | internal/controller/objects.go:388-395 | one new Deployment and one dropped record whose wake fails: the new one is at zero, its count is nowhere, and the old records stay |
| `Fates.KindSame` | internal/controller/objects.go:360-404 | the block of a kind under another fate that gives its calls the same answers goes the same way |
| `Fates.MaskedKinds` | internal/controller/objects.go:355-542 | an awake object without a record and a later one of its kind: refuse only its own update, and the pass ends without an error and without a report, although that scale-down has not happened |
| `Fates.HonestExactlyWhenExposed` | internal/controller/objects.go:355-542 | under every fate a pass without an error and without a report has put all included objects to sleep, if and only if every awake one is the last without a record of its kind or a dropped record is of a missing object |
| `Values.ScaledToZero` | internal/controller/included-objects/object.go:116-145 | whatever fails in a pass without an error, an included object is suspended (a CronJob) or at zero replicas (the others) if its count was not zero or its flag not set, it had no record and its own scale-down happens; else it has the value it had |
| `Values.NewObjectsAtZero` | internal/controller/included-objects/object.go:214-247 | without failing calls, when the objects of dropped records exist, every included object without a record ends up suspended (a CronJob) or at zero replicas (the others) |
| `Values.AsleepMeans` | internal/controller/included-objects/object.go:234 | an object with a value of its kind is asleep exactly when it is suspended or has no replicas |
| `Values.RunKeepsFit` | internal/controller/objects.go:355-571 | over every run, whatever fails, CronJobs have suspend flags and the others replica counts, in the cluster and in the records |
| `Repeats.RunThenWake` | internal/controller/kronosapp_controller.go:129-174 | after every run that loses nothing, one wake that succeeds gives every object the value last given while unrecorded and empties the Secret |
| `Repeats.WakeOrderIrrelevant` | internal/controller/objects.go:132-139 | two wakes that succeed, reading the kinds in different orders, end in the same cluster |
| `Repeats.WakeRestarts` | internal/controller/objects.go:558-571 | a wake that stopped anywhere, then one that succeeds, equals one that succeeds |
| `Repeats.SleepIsIdempotent` | internal/controller/objects.go:371-400 | without failing calls, sleeping again over the same objects changes no object and no record; from then on not even the order |
| `ApiServer.Client.Get` | internal/controller/included-objects/deployment.go:58-66 | a granted call finds an existing object with its live value and changes nothing |
| `ApiServer.Client.Update` | internal/controller/included-objects/object.go:109-112 | a granted or lost update has happened, a refused one has not |
| `ApiServer.Client.UpdateSecretData` | internal/controller/secrets.go:81-83 | the same for the stored Secret |
| `ApiServer.Client.CreateSecret` | internal/controller/secrets.go:46-58 | creates the Secret when it is missing and the call is not refused, and changes no record |
| `ApiServer.Client.List` | internal/controller/included-objects/deployment.go:31-38 | exactly the objects of the kind in the namespace, each once, in any order |
| `Controller.UpdateClient` | internal/controller/included-objects/object.go:89-114 | fetches the object and writes the resource's value, failing if either call fails |
| `Controller.Sleep` | internal/controller/included-objects/object.go:116-128 | writes the dormant value unless the count is already zero, and returns the value to store |
| `Controller.PutToSleep` | internal/controller/included-objects/object.go:134-145 | leaves a dormant object alone, else scales it down and names it when that fails |
| `Controller.Wake` | internal/controller/included-objects/object.go:147-153 | writes the recorded value back |
| `Controller.WakeEach` | internal/controller/objects.go:564-569 | wakes in list order and stops at the first failure |
| `Controller.CheckOccurenceInSavedData` | internal/controller/objects.go:328-335 | the first record under the name and namespace, or -1 when there is none |
| `Controller.SaveObjectsData` | internal/controller/secrets.go:70-85 | replaces the list of the kind in the fetched Secret and stores the whole |
| `Controller.PurgeSecretData` | internal/controller/secrets.go:127-134 | empties the fetched Secret and stores it |
| `Controller.WriteChanges` | internal/controller/objects.go:315-326 | stores a non-empty list, and files the failed names only after the store succeeds |
| `Controller.SleepIncluded` | internal/controller/objects.go:360-404 | one kind's block is the pass function proved about in Conservation |
| `Controller.PutIncludedObjectsToSleep` | internal/controller/objects.go:355-542 | the kinds in source order, stopping at the first error with no failures reported |
| `Controller.GetDataFromSecret` | internal/controller/objects.go:544-556 | all records in some order of the four kinds |
| `Controller.WakeUpResources` | internal/controller/objects.go:558-571 | replays all records in some order of the kinds |
| `Fetch.ValidateIncludedObjects` | internal/controller/objects.go:171-182 | succeeds exactly when every entry is supported, with its two wildcard flags |
| `Fetch.SupportedIffNaming` | internal/controller/objects.go:141-169 | an entry is supported exactly when some kind fits its apiVersion and kind, which are written out; its flags are its two wildcards |
| `Fetch.FetchesWhatItNames` | internal/controller/objects.go:184-286 | the fetched kinds of a supported entry, written out: all four for a wildcard apiVersion; they are the named ones if and only if it is not a wildcard apiVersion with a concrete kind |
| `Fetch.FilterKeeps` | internal/controller/included-objects/deployment.go:12-29 | the filter keeps exactly the objects matching the include and not the exclude pattern, each once |
| `Fetch.FilterConcat` | internal/controller/included-objects/deployment.go:23-27 | filtering goes element by element, so the list order is kept |
| `Fetch.IncludeAloneSelectsNothing` | internal/controller/included-objects/cronjob.go:12-28 | without an exclude pattern an include pattern selects nothing |
| `Fetch.GetByPattern` | internal/controller/included-objects/deployment.go:12-29 | all objects for two empty patterns, no list exactly for equal ones that are not empty, else exactly the objects whose name matches the include and not the exclude pattern, in list order |
| `Fetch.FetchAndFilter` | internal/controller/objects.go:184-286 | the non-empty selections of the fetched kinds replace the lists of those kinds |
| `Fetch.FetchIncludedObjects` | internal/controller/objects.go:288-313 | the fold over all entries lists existing objects with present values; equal non-empty references are never survived |
| `Fetch.PicksInWords` | internal/controller/objects.go:184-313 | an entry takes the existing objects of a kind its apiVersion and kind fetch, in its namespace, whose name matches the include and not the exclude pattern or whatever the name without patterns |
| `Fetch.FetchedExactly` | internal/controller/objects.go:288-313 | a kind is fetched exactly when some entry takes an object of it, and its list holds exactly the objects that the last such entry takes |
| `Fetch.LastSelectionWins` | internal/controller/objects.go:288-313 | a kind's final list is the selection of the last entry that selects any of it, and absent without one |
| `Reconciler.Reconcile` | internal/controller/kronosapp_controller.go:57-175 | a spec without meaning or an unsupported entry changes nothing and is retried, a contradicting entry changes nothing; otherwise it changes nothing and is retried, or acts on what the entries select, after exactly its questions, all answered: the KronosApp, the Secret, the lists, the status, and the lists again to sleep; when all these are answered it does act, or crashes for a contradicting entry; without failing calls a missing Secret is created and the reconcile retried |
| `Reconciler.FetchAll` | internal/controller/objects.go:171-313 | fetches only supported entries that do not contradict themselves, and fails only for an unsupported entry or an unanswered list |
| `Reconciler.SelectedExactly` | internal/controller/objects.go:288-313 | what a reconcile acts on, object by object |
| `Reconciler.Prepare` | internal/controller/kronosapp_controller.go:57-127 | all before acting is questions: it fails only for a spec without meaning, an unsupported entry, a missing Secret or an unanswered question, and crashes only for a contradicting entry |
| `Reconciler.NoRetryLosesNothing` | internal/controller/kronosapp_controller.go:129-174 | whatever fails, a reconcile that asks for no retry has lost no original value; to sleep, it has recorded exactly the included objects of each included kind, which all sleep exactly when each slept before or was new and its own scale-down happened; to wake, it has restored everything and emptied the Secret |
| `Reconciler.NothingToWake` | internal/controller/kronosapp_controller.go:154-173 | with nothing recorded a reconcile that wakes makes no call and comes back |
| `Reconciler.StopsExactlyWhen` | internal/controller/kronosapp_controller.go:140-150 | a reconcile asks neither to come back nor to be retried exactly when it puts to sleep, no error ends the pass, and some kind's last new object is awake and its scale-down is not confirmed |
| `Reconciler.ComingBackMeansApplied` | internal/controller/kronosapp_controller.go:151-153 | when every awake included object is the last one without a record of its kind, a reconcile that asks to come back has applied its decision |
| `Reconciler.TrustedExactlyWhenExposed` | internal/controller/kronosapp_controller.go:141-153 | the same of a reconcile that asks to come back: exactly when that can be trusted whatever calls fail |
| `Reconciler.RefusedScaleDownStops` | internal/controller/kronosapp_controller.go:142-145 | one refused update: the object stays awake, is recorded, and the chain of reconciles ends |
| `Reconciler.SecondHidesFirst` | internal/controller/objects.go:378-381 | two new objects, the first update refused: the reconcile asks to come back as after success, and the first object stays awake through every later sequence of sleep passes |
| `Machine.GrantedAct` | internal/controller/kronosapp_controller.go:129-174 | without failures, from a state whose recorded objects sleep, a reconcile asks to come back, applies its decision and keeps every original value |
| `Machine.ReconcileInForce` | internal/controller/kronosapp_controller.go:57-175 | any calls may fail: originals are kept by the reconcile in force, provided that no retried sleep pass scaled down without landing its record; it is retried within the backoff, or, when its instant is steady and nothing can fail unnoticed, the cluster agrees with the ideal schedule except at most the latency after a change point |
| `Machine.SteadyChainFollowsSchedule` | internal/controller/kronosapp_controller.go:57-175 | any calls may fail in a chain that reconciles at steady instants only and in which nothing can fail unnoticed: at every instant the cluster agrees with the ideal schedule, or a change point passed at most the latency ago, or the reconcile in force has failed and is retried within the backoff |
| `Machine.ClusterFollowsSchedule` | internal/controller/kronosapp_controller.go:57-175 | without force flags and retries, for overnight windows or all weekdays without holidays, a latency shorter than the wake period, and either no failing call or none that can fail unnoticed: from the first look on, or the second when the first is at a start, the cluster agrees with the ideal schedule except at most the latency after a change point |
| `Machine.UserSees` | internal/controller/kronosapp_controller.go:57-175 | the same chains from an empty Secret, in plain values: at every instant but at most the latency after a deadline, which is at a start, an end or the midnight after a holiday, the included objects are suspended or at zero, or the cluster is the starting one, by the day and the clock time alone |

## Left out

- SleepSchedules.NewSleepSchedule: the time zone is a fixed offset and now is a parameter, because the code's own 24-hour arithmetic does not follow a daylight-saving change.
- SleepSchedules.NewSleepSchedule: only weekday lists and dates that the webhook accepts, and "*"; for other strings only the two parsers are modelled.
- HolidayDates.ExtractHolidays: only dates that the webhook accepts, for the same reason.
- Weekdays.ExtractWeekdays: a range up to the largest integer, over which the loop of the source never ends.
- Holidays.CheckConsecutiveDates: durations are unbounded integers, while Go's wrap after about 292 years; `Holidays.WaitBounds` gives the number of holidays up to which they fit.
- Looks.ChainIsStable: assumes that a requeue fires strictly after its deadline and within a latency shorter than the wake period, and that nobody changes the KronosApp meanwhile.
- Machine.ReconcileInForce: no edits by others, and no retried sleep pass that has lost an original value; edits are covered by the run results, lost values by `Conservation.SleepPassConserves`. A chain ends when a reconcile stops (`Reconciler.StopsExactlyWhen`).
- Controller.PutIncludedObjectsToSleep: the four blocks of the source are one method run over the four kinds in source order, with one resource type for replica counts and suspend flags.
- ApiServer.Client.List: listed objects carry their own kind and a set replica count or suspend flag, as the API server's defaults and the manager's cache provide.
- Runs.OriginalIsIntended: objects are not deleted by others, and one KronosApp manages them.
- Fetch.GetByPattern: a pattern that does not compile; matching itself is a parameter.
- Reconciler.Reconcile: the Secret is not deleted by others once it exists; that would take its records with it.
- Loops that list names for the log, cast a list or copy a slice: sequence operations here.
- JSON encoding of records: the Secret holds typed record lists per kind.
- Status text, metrics and logging: output only.
- The defaulting webhook: it assigns to loop copies, so its object defaults have no effect.
- Kubernetes caching, leader election and webhook registration: library plumbing.
