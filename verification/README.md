# Verified model of the Primind central backend

The backend keeps tasks with reminders for users who log in through OpenID Connect. This project models its
four parts with state or arithmetic worth proving, and proves what they promise.

**Tasks.** Two tables (`tasks`, `completed_tasks`) and a queue of register and cancel messages. Each handler (create,
update and complete, delete) is written twice: as a method on the store, and as a program counter with a step
function, one step per database or queue call. The method is proved to end where its steps end, so that
what is proved about the steps holds of the method. `TaskOutcomes` says what one call does from request to final
state. `TaskMachine` lets any number of calls interleave and stop dead after any step; its theorems hold for
every list of actions. A failed call has no effect.

Three promises do not hold of every run. Each has the exact condition under which it holds, simpler conditions that
imply it, and a reachable state in `TaskCounterexamples` that breaks it:

- *No dangling reminder.* A delete can cancel and remove a row between a create's save and its registration; the
  registration then outlives the row. `ReminderSafety.DanglesExactly` names the steps that do it.
- *Rows stay readable.* If a deleted id is created again while an update still holds the old row, the update can write
  times that do not fit the new row's type. The row no longer converts, so its owner's list fails.
  `RowValidity.RowsGoodExactly` names the writes that do it; distinct ids in the requests to create rule them out.
- *A delete or completion cancels the reminder.* The cancellation carries the id as the request spelled it, the
  registration its canonical text. Matched by text, a request that spells the id another way (upper case, braces)
  succeeds and leaves the reminder pending, without any interleaving. `ReminderSpelling.DeleteByText` and
  `CompletionByText` are exact.

**Reminders.** `Doubles` models IEEE 754 doubles (rounding to nearest, ties to even) on integers, and `Reminders`
computes with the stored doubles of the percentage tables, not with exact hundredths. `GoTime` has Go's truncation,
rounding and saturating subtraction.

**Logins and sessions.** `LoginFlow` has the login from the verified identity on: as methods, and as steps over
committed rows and each transaction's own uncommitted ones. `AuthMachine` interleaves any number of logins under READ
COMMITTED with a unique key on (provider, subject): an insert that meets another transaction's uncommitted
row waits, then does nothing if that row was committed and inserts if it was not. Logouts, clock changes and evictions
by the session store are further actions of the same runs.

**Settings and retries.** `PeriodSettings` refines the stored text-keyed rows to a plain map per user; `DeviceRetry`
and `QueueClient` have the two retry loops.

External outcomes (sessions, clocks, fresh ids, devices, which calls fail) are parameters, or part of an environment
fixed when a call starts; since the environment is arbitrary, so is every outcome.

`dafny verify dfyconfig.toml` verifies the project.

| File | Models |
|---|---|
| `Wrappers.dfy`, `GoTime.dfy`, `Doubles.dfy`, `TimeLists.dfy` | options and results, Go's time arithmetic, doubles, lists of instants |
| `Color.dfy`, `TaskDomain.dfy`, `TaskRecords.dfy` | colours, tasks, rows |
| `Reminders.dfy` | reminder times |
| `UpdateMask.dfy` | the update mask, from the service to the changed task |
| `TaskTables.dfy`, `TaskHandlers.dfy`, `TaskOutcomes.dfy`, `TaskAnswers.dfy` | the tables and the queue, the handlers, what one call does and answers |
| `TaskMachine.dfy`, `RowValidity.dfy`, `FreshIds.dfy` | interleaved runs, the row ledger, when rows stay good |
| `ReminderSafety.dfy`, `ReminderSpelling.dfy`, `TaskCounterexamples.dfy` | when reminders dangle, by id and by text; states that break the promises |
| `PeriodSettings.dfy`, `DeviceRetry.dfy`, `QueueClient.dfy` | settings, retry loops |
| `Sessions.dfy`, `LoginFlow.dfy`, `AuthMachine.dfy` | sessions, logins, interleaved runs of both |

## Model

| member | source | states |
|---|---|---|
| Reminders.PercentageIsNearestDouble | internal/task/domain/task/remind_interval.go:7-23 | The seven stored percentages are the doubles nearest to 0.35, 0.56, 0.65, 0.70, 0.87, 0.89 and 0.96, so the tables can be computed with exactly as the program does. |
| Doubles.RoundNearest | internal/task/domain/task/reminder_info.go:38 | The rounding used for `float64` products picks a double to which no other double is nearer (IEEE 754-2019, section 4.3.1). |
| Doubles.RoundTiesToEven | internal/task/domain/task/reminder_info.go:38 | Of two equally near doubles it picks the one with the even last bit. |
| Doubles.RoundMonotone | internal/task/domain/task/reminder_info.go:38 | Rounding to a double keeps order, for all arguments. |
| Doubles.RoundIsDouble | internal/task/domain/task/reminder_info.go:38 | Its result has at most 53 significant bits. |
| Doubles.RoundIsTheNearest | internal/task/domain/task/reminder_info.go:38 | Rounding as the standard defines it (nearest, ties to even) has one result, the one used. |
| Doubles.IsDoubleMeaning | internal/task/domain/task/reminder_info.go:38 | The doubles are exactly the numbers of at most 53 bits times a power of two. |
| GoTime.SubIsNearest | internal/task/domain/task/reminder_info.go:26 | `Sub` gives the int64 nearest to the exact difference. |
| GoTime.RoundToMinuteNearest | internal/task/domain/task/reminder_info.go:40 | For every int64, `Round(time.Minute)` gives a whole number of minutes, at most half a minute away, halves going away from zero; it never has to saturate. |
| Reminders.CalculateReminderTimes | internal/task/domain/task/reminder_info.go:19-60 | The loop computes exactly the specification `ReminderTimes`, with the id, type, user, devices and colour passed on; nothing for a nil task. |
| Reminders.RemindedAsDue | internal/task/domain/task/remind_interval.go:7-48 | For every task with target >= created, with the percentages and thresholds as numbers: short tasks are reminded at 70 and 96 hundredths, near at 56 and 89, relaxed at 35, 65 and 87, scheduled ones by their length (up to 30 min, up to 3 h, beyond), each on a whole minute and within 30 s + 4 µs; then at the target. A percentage is left out only if it is that close to the target. |
| Reminders.ProductInDoubles | internal/task/domain/task/reminder_info.go:38 | `time.Duration(float64(d) * float64(p))` is what the standard says: both factors as doubles, their product rounded to the nearest double, without its fraction. |
| Reminders.OffsetError | internal/task/domain/task/reminder_info.go:38-40 | For every duration up to the int64 limit, every percentage offset is within 30 s + 4 µs of the exact percentage, counting all four roundings and the truncation. |
| Reminders.OffsetMonotone | internal/task/domain/task/reminder_info.go:37-41 | A larger percentage never gives an earlier reminder, whatever the float error. |
| Reminders.ReminderTimesShape | internal/task/domain/task/reminder_info.go:24-50 | For every task with target >= created (`Sub` may saturate): the list is not empty, in order, inside [created, target], ends at the target, and is a prefix of the rounded percentages, cut exactly where they pass the target, plus at most the target. |
| Reminders.StrictFromFiveMinutes | internal/task/domain/task/reminder_info.go:37-50 | From five minutes on no two reminders coincide, for every table. |
| Reminders.StrictOnWholeMinutes | internal/task/domain/task/remind_interval.go:7-48 | Exactly which whole-minute periods give reminders that all differ: m >= 2, for relaxed tasks m = 3 or m >= 5. For the others two reminders coincide. |
| Reminders.WholeMinutesDropNothing | internal/task/domain/task/reminder_info.go:43-50 | When the period is whole minutes no percentage reminder is dropped. |
| Reminders.TwelveMinutesDropNothing | internal/task/domain/task/reminder_info.go:43-50 | From twelve minutes on, whatever the length and type, no percentage reminder is dropped. |
| Reminders.JustUnderTwelveMinutesDropsOne | internal/task/domain/task/reminder_info.go:43-50 | Twelve minutes is the least such length: a scheduled task one microsecond shorter loses its 96 % reminder, which rounds past the target. |
| Reminders.SeventyPercentOfTwentyFiveMinutes | internal/task/domain/task/reminder_info.go:38-40 | 0.70 of 25 min rounds to 17 min although the exact value 17.5 would round to 18. |
| Color.NormalizeHex | internal/task/domain/task/color.go:45-64 | The scanning loop computes `NormalizedHex`. |
| Color.NewColorNormalizes | internal/task/domain/task/color.go:12-43 | `NewColor` gives only `#` and six upper-case digits, and a colour comes back unchanged from its own text if and only if it has that form; `Validate` accepts exactly the texts that `NewColor` accepts. |
| Color.AcceptedTexts | internal/task/domain/task/color.go:12-77 | A text is accepted if and only if it is white space around an optional `#` and six hexadecimal digits, and the colour is `#` and the upper-case forms of those digits. White space alone is the empty error, anything else the format error. |
| TaskDomain.NewTaskIdempotent | internal/task/domain/task/task.go:88-143 | Whatever `NewTask` builds it builds again from its own fields: truncation and checks are idempotent. |
| TaskDomain.NewTaskExactly | internal/task/domain/task/task.go:88-143 | Exactly which parts make a task, the first fault of the others, and the task's fields: the parts, with the times cut to whole microseconds. |
| TaskDomain.WellFormedMeaning | internal/task/domain/task/task.go:88-143 | Well formed, field by field: title, colour, known type and status, scheduled time exactly for scheduled tasks and not before the creation, whole microseconds. |
| TaskDomain.CreateTaskGood | internal/task/domain/task/task.go:145-199 | A created task is pending and good (its row can be read back, times agree with the type, target >= created), carries the given id (else the fresh one), user, title, type, description, colour and truncated times, and an unscheduled one lasts exactly the custom or default period. |
| TaskDomain.ApplyUpdateGood | internal/task/domain/task/task.go:259-309 | An applied update gives a good task with the same id, owner, type and creation time, and never clears a scheduled time. |
| TaskRecords.RowRoundTrip | internal/task/infra/repository/task.go:48-117 | Writing a task to its row and reading it gives the same task if and only if the task is well formed (what `NewTask` builds from known texts and a parsed colour). |
| TaskRecords.ReadIsWellFormed | internal/task/infra/repository/task.go:79-117 | Whatever is read from a row is well formed. |
| TaskRecords.ReadsExactly | internal/task/infra/repository/task.go:79-117 | Exactly which rows convert, with the column texts written out, to which task, and the first fault of the others. |
| UpdateMask.BuildServiceRequest | internal/task/infra/service/service.go:377-411 | The service's loop over the mask computes `ServiceRequest`: a bad masked status is refused, the masked fields are set and no others. |
| UpdateMask.BuildUpdateInput | internal/task/app/task/task.go:694-742 | The loop computes `UpdateInput`, stopping at the first unknown path or unparsable colour. |
| UpdateMask.InputMeaning | internal/task/app/task/task.go:694-742 | Acceptance and the resulting change are a function of the set of paths: all known, a masked colour parses, each masked field is taken from the request. |
| UpdateMask.InputFault | internal/task/app/task/task.go:705-739 | A refused mask is refused for its first faulty path. |
| UpdateMask.MaskOrderIrrelevant | internal/task/infra/service/service.go:383-411 | Two masks with the same paths, in any order and with repetitions, are both refused or give the same change, through both loops. |
| UpdateMask.MaskSemantics | internal/task/app/task/task.go:694-754 | Field by field, what an accepted update does to a good task: masked fields take the request's values, everything else stays, the target follows the scheduled time. |
| UpdateMask.UpdateAccepted | internal/task/app/task/task.go:607-640 | Exactly the requests that get as far as the store: an if and only if over mask, status, colour, title and scheduled time. |
| UpdateMask.AppliesExactly | internal/task/app/task/task.go:629-640 | Exactly when an accepted change applies to a task that was read, and the first fault otherwise. |
| TaskTables.TaskStore.constructor | internal/task/infra/repository/task.go:34-36 | Both tables and the queue start empty. |
| TaskTables.TaskStore.SaveTask | internal/task/infra/repository/task.go:38-62 | Inserts the row of a new id; a known id is a duplicate key; a failure changes nothing. |
| TaskTables.TaskStore.GetTaskByID | internal/task/infra/repository/task.go:64-77 | The converted row of this id and user, or not found. |
| TaskTables.TaskStore.ExistsTaskByID | internal/task/infra/repository/task.go:119-131 | Whether `tasks` has a row of the id; `completed_tasks` is not asked. |
| TaskTables.TaskStore.UpdateTask | internal/task/infra/repository/task.go:164-195 | Column by column: the user's row takes the new title, description, status, colour and two times, keeps id, owner, type and creation time, and nothing else changes; not found without such a row. |
| TaskTables.TaskStore.UpdateTaskStatus | internal/task/infra/repository/task.go:213-228 | The status column of the user's row reads as the new status; nothing else changes; not found without such a row. |
| TaskTables.TaskStore.DeleteTask | internal/task/infra/repository/task.go:197-211 | Removes the user's row; not found without one. |
| TaskTables.TaskStore.ArchiveTask | internal/task/infra/repository/completed_task.go:37-86 | Moves a row to `completed_tasks`: both the insert and the delete take effect, or neither. |
| TaskTables.TaskStore.Send | internal/task/app/task/task.go:226 | A message is appended, or on failure nothing is. |
| TaskTables.TaskStore.ListActiveTasksByUserID | internal/task/infra/repository/task.go:133-162 | Returns the conversions of the selected rows in order; fails if and only if the query does or a row does not convert, then with the error of the first such row. |
| TaskHandlers.FilterDevicesWithFCMToken | internal/task/app/task/task.go:308-319 | The loop computes `WithToken` and counts the rest. |
| TaskOutcomes.WithTokenMeaning | internal/task/app/task/task.go:308-319 | Filtering keeps exactly the devices with a non-empty token, each as often as it occurs. |
| TaskOutcomes.WithTokenInOrder | internal/task/app/task/task.go:308-319 | Filtering keeps the order. |
| TaskHandlers.ConvertToRemindRequest | internal/task/app/task/task.go:284-306 | The request carries the times, user, canonical id, type and colour, and for every device in order its id and its token. |
| TaskHandlers.PrepareTask | internal/task/app/task/task.go:124-217 | The checks and computations before the first write, in the program's order, give the task to save and the reminder to register. |
| TaskHandlers.RegisterOrRollBack | internal/task/app/task/task.go:225-240 | The registration and, when it fails, the rollback delete: the same outcome as the steps. |
| TaskHandlers.SaveAndRegister | internal/task/app/task/task.go:219-262 | Save, register, roll back or activate, on the store: the same final state and result as the steps that the interleaved runs take. |
| TaskHandlers.CreateTaskHandler | internal/task/app/task/task.go:71-263 | The whole create handler does what its steps do, from any state and with any calls failing. |
| TaskHandlers.UpdateTaskHandler | internal/task/app/task/task.go:571-692 | The whole update handler, service loop included, does what its steps do. |
| TaskHandlers.ArchiveOrWrite | internal/task/app/task/task.go:642-679 | The last calls of an update, cancel and archive or write: the same outcome as the steps. |
| TaskHandlers.DeleteTaskHandler | internal/task/app/task/task.go:785-853 | The whole delete handler does what its steps do. |
| TaskOutcomes.CreateClosedForm | internal/task/app/task/task.go:71-263 | A create run alone either stops before the first write with nothing changed or has the saga's closed-form outcome. |
| TaskOutcomes.CreateSaga | internal/task/app/task/task.go:184-248 | On success the new row is the requested task (id, type, title, description, colour, times; it lasts the user's minutes for its type, else 30, 180 or 1440), active and exactly one registration was queued if some device has a token (those devices in order, the computed times), else none. On error nothing changed, or one pending row is left, exactly because the rollback delete or the final status update failed. |
| TaskOutcomes.UpdateOutcome | internal/task/app/task/task.go:571-692 | On success the stored row reads back as the updated task that is answered, or, when completed, was moved field by field to `completed_tasks` after a cancellation was queued; on error both tables are untouched. It succeeds if and only if the user owns a converting row, the change applies to it, the calls needed do not fail, and a completed id is not archived yet. |
| TaskOutcomes.DeleteOutcome | internal/task/app/task/task.go:785-853 | On success the user's row is gone and a cancellation was queued before; on error the tables are untouched; "not found" if and only if the user has no such row and no call failed. |
| TaskAnswers.CreateAnswers | internal/task/app/task/task.go:71-248 | A create alone succeeds if and only if nothing is wrong with the request and the calls, and otherwise answers exactly the first fault. |
| TaskAnswers.UpdateAnswers | internal/task/app/task/task.go:571-679 | The same for an update, from the service's mask loop to the last write. |
| TaskAnswers.DeleteAnswers | internal/task/app/task/task.go:785-848 | The same for a delete. |
| TaskMachine.RowLedger | internal/task/infra/repository/completed_task.go:47-85 | In every interleaving of any handlers, with failures and crashes: saves - deletes - archives of an id is 1 if its row is in `tasks`, else 0; at most one archive per id commits, and exactly the archived ids are in `completed_tasks`. |
| TaskMachine.OneConsumerWins | internal/task/infra/repository/task.go:197-211 | However many completes and deletes compete for a row saved once, exactly one takes it, or none and it is still there. |
| TaskMachine.CompletedIdIsNeverArchivedAgain | internal/task/infra/repository/task.go:119-131 | A completed id may be created again, but its archived row never changes and no later row of it is ever archived. |
| RowValidity.OverwriteGoodExactly | internal/task/infra/repository/task.go:164-195 | An overwrite writes six columns and leaves type and creation time: a good row stays good if and only if both old row and new task are scheduled or neither is, and the new target does not precede the row's creation. |
| RowValidity.RowsGoodExactly | internal/task/infra/repository/task.go:174-184 | Exactly when rows stay good: in every interleaving with failures and crashes, all rows are good after every step if and only if no write takes effect on a row it does not suit (the condition just above, readable before the write). |
| RowValidity.RowsStayGood | internal/task/infra/repository/task.go:79-117 | In those runs every row converts, is active or pending, is of a known type, has target = scheduled time if scheduled and no scheduled time otherwise, and created <= target. |
| RowValidity.ListReturnsAll | internal/task/infra/repository/task.go:133-162 | In those runs the list query never fails to convert a row and returns exactly the user's rows. |
| RowValidity.ScheduledTimeStays | internal/task/domain/task/task.go:259-309 | In those runs no step clears the scheduled time of a row that stays, or changes its owner, type or creation time. |
| FreshIds.NeverStaleNeverSpoils | internal/task/app/task/task.go:616-672 | If no id comes back while an update holds its old row, no write spoils a row. |
| FreshIds.NoReuseIsNeverStale | internal/task/app/task/task.go:616-672 | If no id is saved again after its row has left, no id comes back while an update holds its old row. |
| FreshIds.DistinctIdsNeverReuse | internal/task/app/task/task.go:93-122 | If no two requests to create are for one id (given or drawn), no id is saved again. |
| FreshIds.DistinctIdsKeepRowsGood | internal/task/infra/repository/task.go:174-184 | So, from the requests alone: when no two creates are for one id, every interleaving keeps all rows good. |
| ReminderSafety.StepDangles | internal/task/app/task/task.go:225-238 | From a state without dangling reminders, a step leaves one if and only if it registers a reminder for a row that is not the user's any more, or removes a row whose registration is still the last message; both can be read off before the call. |
| ReminderSafety.DanglesExactly | internal/task/app/task/task.go:219-248 | Exactly when reminders are safe: in every interleaving with failures and crashes, no reminder dangles after any step if and only if no step of the run is one of those. |
| ReminderSafety.NoDanglingReminder | internal/task/app/task/task.go:642-668 | In those runs, if the last message about task and user is a registration, the user's row is still in `tasks`. |
| ReminderSafety.NeverRacesNeverBreaks | internal/task/app/task/task.go:823-848 | It is enough that no create of a task overlaps its owner's removal of it, between save and registration (or rollback) and between cancellation and removal. |
| ReminderSafety.SerialRunsAreSafe | internal/task/app/task/task.go:642-668 | In every run of calls that do not overlap, each failing or crashing anywhere: after every step no reminder dangles and every row is good, without further conditions. |
| ReminderSpelling.DeleteByText | internal/task/app/task/task.go:823-848 | Cancellations carry the request's text of the id: after a successful delete the reminder is still pending under the canonical text if and only if it was and the request spelled the id another way. |
| ReminderSpelling.CompletionByText | internal/task/app/task/task.go:642-668 | The same for a completion. |
| ReminderSpelling.NoDanglingText | internal/task/app/task/task.go:823-848 | With canonically spelled requests, runs without the breaking steps leave no reminder dangling by text either. |
| TaskCounterexamples.OverlapCanDangle | internal/task/app/task/task.go:225-240 | A reachable state with a dangling reminder: a delete cancels and removes between a create's save and its registration. |
| TaskCounterexamples.StaleUpdateCanSpoilRow | internal/task/infra/repository/task.go:164-195 | A reachable state with a row that no longer converts: a deleted id was created again under an update that had read the old row. |
| TaskCounterexamples.OtherSpellingCanDangle | internal/task/app/task/task.go:824-827 | A reachable state, after one successful create and one successful delete in sequence, in which the reminder is still pending under the canonical text: the delete spelled the id another way. |
| PeriodSettings.NewUserPeriodSettings | internal/task/domain/period/period_setting.go:22-46 | Accepts exactly the maps with 1 to 10080 minutes for short, near and relaxed only; otherwise the error of a bad entry, whatever the order of the map. |
| PeriodSettings.EncodeThenDecode | internal/task/infra/repository/period_setting.go:77-100 | Valid settings come back unchanged from the text-keyed row. |
| PeriodSettings.SettingsToPeriodsMap | internal/task/infra/repository/period_setting.go:92-100 | The loop puts the three entries under `short`, `near` and `relaxed`, in any map order. |
| PeriodSettings.RecordToPeriods | internal/task/infra/repository/period_setting.go:77-90 | The loop decodes, in any map order, skipping unknown keys. |
| PeriodSettings.PeriodStore.Save | internal/task/infra/repository/period_setting.go:56-75 | Replaces the user's row by the encoded map, that is the user's map in the plain map that the table stands for, or on failure changes nothing. |
| PeriodSettings.PeriodStore.GetByUserID | internal/task/infra/repository/period_setting.go:39-53 | Reads the user's map, empty without a row; never fails to validate what was saved. |
| PeriodSettings.LastWinsMeaning | internal/task/app/period/period_setting.go:174-178 | The request as a map: the last entry for a type wins. |
| PeriodSettings.UpdatePeriodSettings | internal/task/app/period/period_setting.go:149-209 | Succeeds if and only if the user is known, the last-entry-wins map is valid and the database does not fail; then that map replaces the user's, and is listed once per entry. The table changes as one call of `ReadsLastUpdate`. |
| PeriodSettings.GetPeriodSettings | internal/task/app/period/period_setting.go:71-129 | Lists exactly the user's entries and exactly the defaults 30, 180 and 1440. |
| PeriodSettings.ReadsLastUpdate | internal/task/infra/repository/period_setting.go:39-75 | After any sequence of updates by any users, a user's row decodes to the map of that user's last successful update. |
| PeriodSettings.PeriodIsExact | internal/task/domain/period/period_setting.go:64-80 | target - created is exactly the chosen minutes or the default period although both ends are truncated. |
| PeriodSettings.CustomPeriodEndToEnd | internal/task/domain/task/task.go:176-185 | From any validated settings to the reminders: the exact minutes, every percentage reminder kept, and exactly when they all differ. |
| DeviceRetry.GetUserDevicesWithRetry | internal/task/infra/deviceclient/retry.go:26-93 | The loop goes on exactly while the outcome is `ErrDeviceServiceUnavailable` and attempts are left, and returns the outcome it stops at, with the waits in between, unless the context ends. |
| DeviceRetry.StopIsUnique | internal/task/infra/deviceclient/retry.go:35-77 | That description leaves no choice of the attempt it stops at. |
| DeviceRetry.IntervalClosedForm | internal/task/infra/deviceclient/retry.go:70-73 | For an integer multiplier M, while products fit in a double: wait 1 is the initial interval, wait k + 1 is min(initial * M^k, maximum). |
| DeviceRetry.DefaultWaits | internal/task/infra/deviceclient/retry.go:17-24 | The default configuration: three attempts, and waits that double from 100 ms up to 2 s. |
| QueueClient.PostWithRetry | internal/task/infra/taskqueue/primind_client.go:65-95 | Between 1 and maxRetries posts, stopping at the first success, with the last error when all fail, and the waits slept. |
| QueueClient.BackoffOverflow | internal/task/infra/taskqueue/primind_client.go:69 | The wait before retry n is 100 ms * 2^(n-1) if and only if n <= 37; beyond, int64 overflows. So up to 38 posts are free of overflow. |
| QueueClient.TotalBackoffClosedForm | internal/task/infra/taskqueue/primind_client.go:67-80 | n posts are separated by 100 ms * (2^(n-1) - 1) of waiting, up to 38 posts. |
| LoginFlow.AuthStore.constructor | internal/auth/infra/repository/user_oidc_identity.go:20-25 | No users and no identities. |
| LoginFlow.AuthStore.GetOIDCIdentityByProviderSubject | internal/auth/infra/repository/oidcidentity.go:66-89 | The owner of the key, nothing for an unknown key, an error if the call fails or the row has an empty part. |
| LoginFlow.AuthStore.GetUserByID | internal/auth/infra/repository/user.go:57-82 | An error if the call fails or there is no such user. |
| LoginFlow.AuthStore.SaveUserWithOIDCIdentity | internal/auth/infra/repository/user_oidc_identity.go:35-109 | The transaction, with any call failing and with a rival committing the key in between: the same outcome as the steps the interleaved runs take. |
| LoginFlow.CreateUserAndIdentity | internal/auth/app/oidc/login.go:269-297 | Refuses an empty provider or subject before the transaction; returns the new user if the transaction commits, its error otherwise. |
| LoginFlow.ResolveUser | internal/auth/app/oidc/login.go:241-267 | Lookup, then either load the owner or create user and identity. |
| LoginFlow.Login | internal/auth/app/oidc/login.go:155-188 | Resolve the user, build and save the session, make the token: the same final state and result as the steps. |
| LoginFlow.LoginOutcome | internal/auth/app/oidc/login.go:155-188 | A login alone but for a rival. It succeeds if and only if no call on the way fails, the key is known or stays free, and the session has a version 7 id and is not over before it is saved; otherwise it answers exactly the first fault. On success the key's user (or the new user, now in the database with its identity) with its session in the store, expiring duration after it was built. On error before the session nothing of it is left; after, user and identity stay, both. A conflict means the rival took the key. |
| AuthMachine.NoOrphans | internal/auth/infra/repository/user_oidc_identity.go:48-108 | In every interleaving of any number of logins, with failures and crashes: every identity points to a committed user and every committed user owns an identity. |
| AuthMachine.IdentitiesWrittenOnce | internal/auth/infra/repository/user_oidc_identity.go:85-107 | Whatever follows, a committed identity keeps its user. |
| AuthMachine.FailedTransactionLeavesNothing | internal/auth/infra/repository/user_oidc_identity.go:70-107 | A transaction that reports a conflict or fails leaves no row behind; a conflict means the key belongs to somebody else. |
| AuthMachine.LinksAreFound | internal/auth/app/oidc/login.go:259-267 | A known identity always finds its user, and the second lookup after an ignored insert always finds the row. |
| AuthMachine.WaitingEnds | internal/auth/infra/repository/user_oidc_identity.go:85-91 | No deadlock: an insert that waits for an uncommitted row waits for exactly one transaction, with only its commit left, and no longer once that one commits, fails or dies. |
| AuthMachine.SameKeySameUser | internal/auth/app/oidc/login.go:241-297 | In every interleaving, any two logins that save a session for one provider and subject save it for the same user, the one the committed identity names. |
| Sessions.LoadsUnchanged | internal/auth/domain/session/session.go:77-104 | A session passes its own constructor again unchanged if and only if it satisfies the constraints. |
| Sessions.BuiltExactly | internal/auth/domain/session/session.go:45-104 | Exactly which parts make a session (version 7 id, a user, an end after the beginning), the first fault of the others, and the session's fields. |
| Sessions.ClaimedExactly | internal/auth/app/session/validate.go:62-86 | A token speaks for a session if and only if the verifier accepts it and it carries that version 7 id. |
| Sessions.SessionStore.constructor | internal/auth/infra/repository/session.go:28-33 | No sessions. |
| Sessions.SessionStore.SaveSession | internal/auth/infra/repository/session.go:45-68 | Stores the session until its end, replacing what its id had and nothing else; refuses exactly a session that is over; a failure changes nothing. |
| Sessions.SessionStore.GetSession | internal/auth/infra/repository/session.go:70-96 | The stored session, validated again, or not found. |
| Sessions.SessionStore.DeleteSession | internal/auth/infra/repository/session.go:98-100 | Removes the session and no other; a missing one is no error. |
| Sessions.Validate | internal/auth/app/session/validate.go:57-105 | For a token that speaks for a session: its user if it is stored and not over, else not found or expired. No token and a token that speaks for no session are refused as such, whatever is stored. |
| Sessions.Logout | internal/auth/app/logout/logout.go:45-83 | Succeeds if and only if the verifier accepts the token, it carries a version 7 id, and the store does not fail; then exactly that session is gone, otherwise nothing changed. |
| AuthMachine.StandingMeaning | internal/auth/app/logout/logout.go:76-82 | A session stands in the log if and only if it was opened and neither opened again nor closed since. |
| AuthMachine.SessionsAreSafe | internal/auth/app/session/validate.go:88-104 | Over whole runs, for any eviction and any clock: `Validate` yields a user at a time only if the verifier accepted the token, a login opened the session it carries for that user, no logout of it succeeded since, and the time is before the login plus the duration; and the user is the one its provider and subject belong to. |
| AuthMachine.SessionsAreLive | internal/auth/infra/repository/session.go:57-67 | With clocks that only go forward and a store that keeps a session exactly for its time to live, an accepted token is good if and only if its session stands and is not over. |
| AuthMachine.OneIdentityOneUser | internal/auth/app/oidc/login.go:155-188 | Two good tokens of sessions opened for one provider and subject speak for one user. |

## Left out

- HTTP, SQL, Redis, JSON, JWT signing and verification, PKCE and URL building: library behaviour. A token is its session id and the verifier's yes or no.
- The steps of a login before the verified identity (state, nonce and code exchange) and the steps that read `providers`: they keep no state the claims speak of.
- Nil requests and nil pointers other than the nil task of `CalculateReminderTimes`.
- Texts of ids: `uuid.Parse` is modelled by which id a text denotes and whether it is the canonical spelling; session ids by their number and version. Generated ids are fresh; failing id generation is modelled for tasks only.
- Codes and texts of errors sent to clients, log lines, traces, metrics.
- Users' colours, and the columns `created_at` and `updated_at` that the database fills in.
- `GetTask`, the no-op queues, the Cloud Tasks client (the same loop as `QueueClient`), device registration (an easier form of the identity claims).
- `Color.NormalizeHex`: counts characters where the program counts bytes; they differ only on text that is refused with the same error either way. Invalid UTF-8 is not modelled.
- `Sub` and `Round` saturate as in Go, but instants are unbounded: the range of `time.Time` itself is not modelled.
- Conversions of floats beyond int64 give a platform's value: a parameter `outOfRange` in `DeviceRetry` and `QueueClient`.
- `DeviceRetry.GetUserDevicesWithRetry`: intervals and multiplier are not negative, as in every configuration the program builds.
- `DeviceRetry.IntervalClosedForm`: stated while products stay within 2^53 ns (104 days), where doubles are exact.
- `TaskTables.TaskStore.ArchiveTask`: one atomic step of a run; the two statements inside the transaction are not interleaved, since a row of `tasks` that a transaction deletes is locked until it ends.
- `TaskTables.TaskStore.ListActiveTasksByUserID`: the selection and sorting that the database does are given as a property of the ids it returns.
- A queue that accepts a message and then reports failure is not modelled.
- `Reminders.RemindedAsDue`: for tasks whose target does not precede their creation, the only ones the constructors build.
- Reminders are not registered again when an update moves a scheduled time, so nothing relates queued times to later edits.
- `AuthMachine.SessionsAreLive`: the store's time to live is exact; the rounding of sub-millisecond times to live by the Redis client is not modelled.
- `AuthMachine.WaitingEnds`: a `FOR UPDATE` read that waits for another reader's lock is not shown as waiting; runs in which it goes ahead include all the orders it could be delayed to.
- A login that reports a conflict and is tried again is a new login; all that is claimed of it is that its key then has an owner.
- `PeriodSettings.UpdatePeriodSettings`: all session failures are one error.
