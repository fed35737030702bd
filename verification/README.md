# EC_TG_Bot_v2 power monitor — a Dafny model

The system watches a smart plug on the mains supply and tells Telegram subscribers when the power
goes off or comes back. It has four parts:

- A **scheduler** polls the plug with retries. It appends a row to the `statuses` table only when
  the reading differs from the latest one, so the table is a log of transitions.
- A **notification job** in the bot runs on a timer. It keeps a cursor, the id of the last status
  it announced. On a genuine change it sends one message per user who has notifications enabled.
  A message is silent at night for users who turned night sound off.
- **Handlers** serve `/start`, the settings button, the two registration questions (notifications
  and night sound), the power-status and generator-status buttons, and the admin-only `/msgAll`.
  They work over a user table and a per-user conversation context.
- A **heartbeat** pair: a client on a Raspberry Pi pings a FastAPI listener, which upserts a
  single heartbeat row.

## How the model is organised

Each core source file has one module. Shared entities live in `Common` (Option, ASCII string
helpers, reply tokens) and `Models` (table rows).

Outgoing texts are sequences of tokens:

- `Key` names a language-pack attribute, whose wording stays opaque;
- `Lit` is literal text;
- `Num` is a number;
- `Timestamp` is a formatted date.

A reply records its channel, its language pack, its text, its keyboard and whether it uses
Markdown.

The things the source changes in place are classes:

- `Scheduler.StatusLog` is the status table;
- `PowerNotifications.Notifier` holds the cursor;
- `Users.UserTable` is the user table;
- `BotUtils.UserContext` is `context.user_data`;
- `PiServer.HeartbeatStore` is the heartbeat table;
- `LangPack.LangContainer` holds the iterator index.

Loops are methods proved against specification functions:

- the retry loop `Retry.Run` against `Retry.RetryOutcomeOf`;
- the polling loop `Scheduler.RunPollingLoop` against `Scheduler.RecordAll`;
- the iteration `LangPack.LangContainer.Collect` against the registration order;
- the send loops `PowerNotifications.SendAll` and `MsgAllCommand.MsgAll` against `Retry.SendResultOf`.

External calls and clocks become parameters:

- the Bot API is a function from request and attempt number to an attempt outcome;
- the plug is an attempt function;
- "now", the weekday, the hour and the night flag are integers or booleans.

## Model

| member | source | states |
|---|---|---|
| Constants.WeekdayTilesDay | src/bot/constants.py:9-20 | The weekday table's rows are non-empty and laid end to end from minute 0 to minute 1440. |
| Constants.WeekendTilesDay | src/bot/constants.py:22-33 | The weekend table's rows are non-empty and laid end to end from minute 0 to minute 1440. |
| Constants.WeekdayAlternates | src/bot/constants.py:9-20 | The weekday table starts with a break, and consecutive rows alternate between break and work. |
| Constants.WeekendAlternates | src/bot/constants.py:22-33 | The weekend table starts with a break, and consecutive rows alternate between break and work. |
| Constants.TablesDifferOnlyInFirstBoundary | src/bot/constants.py:9-33 | Both tables have ten rows. They agree on every row from the third on. The first boundary is 06:30 on weekdays and 07:00 at weekends. |
| Constants.ChainCovers | src/bot/constants.py:9-33 | In a table laid end to end, every minute of the covered range lies in some row. |
| Constants.ChainUnique | src/bot/constants.py:9-33 | In a table laid end to end, no minute lies in two rows. |
| Constants.ChainAdjacent | src/bot/constants.py:9-33 | In a table laid end to end, each row is non-empty and ends where the next starts, and the last row ends at the end of the range. |
| BotUtils.NighttimeIsTenHoursFromTwentyTwo | src/bot/utils.py:113-117 | For an hour of the day, night holds exactly for the ten hours that follow 22:00, wrapping past midnight. |
| BotUtils.GenScheduleForDateShape | src/bot/utils.py:140-142 | The table chosen for a day tiles the day and alternates. It is the weekend table (first boundary 07:00) exactly when the weekday is 5 or more. |
| BotUtils.FindInterval | src/bot/utils.py:149-154 | The first-match scan returns the first row whose [start, end) holds the minute. None means no row holds it. |
| BotUtils.ScheduleLookupsTotal | src/bot/utils.py:145-167 | For any valid clock time the lookup finds a row, so neither fallback (`False` or a zero timedelta) is reached. The status is that row's flag and the time to the next switch is the row's end minus the minute, in (0, end-start]. |
| BotUtils.ScheduleSwitchesWhenReported | src/bot/utils.py:145-167 | The scheduled status stays the same until the reported time to the next switch. At that minute it flips, unless the switch is midnight. |
| BotUtils.CompletionMessageSays | src/bot/utils.py:179-202 | The completion text is empty exactly when notifications are on and the night-sound choice is still open. It mentions "notifications disabled" exactly when they are off, and "night sound" (enabled or disabled, as chosen) exactly when a choice was made with notifications on. A non-empty text ends with "registration completed" exactly when not reconfiguring. It mentions "settings updated" exactly when reconfiguring with a night-sound choice. A reconfiguration that turns notifications off gets the "notifications disabled" text alone. |
| BotUtils.UserContext.RegisteringUserId | src/bot/utils.py:26-33 | The stored registering id is present exactly when the key is in the context, and it is the stored value. |
| BotUtils.UserContext.IsReconfiguration | src/bot/utils.py:26-33 | The reconfiguration flag is true exactly when the key is present with a truthy value. |
| BotUtils.UserContext.CleanupRegistrationContext | src/bot/utils.py:26-33 | Removes both registration keys and keeps every other key with its value. |
| BotUtils.DisplayUsername | src/bot/utils.py:120-128 | The displayed name is never empty. It is the username whenever that is set and non-empty. |
| BotUtils.IdentityOfKnownUser | src/bot/utils.py:120-128 | A known user's identity is never the missing-user text "Unknown(null)", and it ends with "(id)". |
| BotUtils.IdentityFromQueryAgrees | src/bot/utils.py:130-137 | The identity of a callback query is that of the user who pressed the button, and "Unknown(null)" for a missing query. |
| Elapsed.SplitMinutes | src/bot/jobs/power_notifications.py:41-57 | The hours-and-minutes split loses no minutes and is canonical. It stays in minutes exactly when the total is at most 60. |
| Elapsed.SplitOfSpanMinutes | src/bot/jobs/power_notifications.py:44-57 | Every canonical span is the split of the minutes it stands for: the split is onto the canonical spans. |
| Elapsed.TimedeltaSeconds | src/bot/jobs/power_notifications.py:183-185 | `timedelta.seconds` lies in [0, 86400), agrees with the difference modulo a day, and equals it when the difference is within a day. |
| Elapsed.Phrase | src/bot/jobs/power_notifications.py:41-57 | There is no phrase for a missing or zero difference. Otherwise the phrase's minutes are the seconds divided by 60, rounded down. |
| Elapsed.ParseRender | src/bot/jobs/power_notifications.py:44-57 | The rendered phrase reads back to the span it was made from. |
| Elapsed.Examples | src/bot/jobs/power_notifications.py:41-57 | 125 minutes read "2 h. and 5 min.", 45 minutes "45 min.", 60 minutes "60 min.", 120 minutes "2 h." and 59 seconds "0 min.". A zero or missing difference has no phrase. |
| LangPack.Lookup | src/bot/lang_pack/container.py:20 | The dict lookup finds a pair with the code, or reports that there is none. |
| LangPack.LangContainer.Iter | src/bot/lang_pack/container.py:22-24 | `__iter__` resets the index. |
| LangPack.LangContainer.Next | src/bot/lang_pack/container.py:26-31 | `__next__` returns the pack at the index and advances it. Past the end it returns nothing and leaves the index alone. |
| LangPack.LangContainer.Collect | src/bot/lang_pack/container.py:13-31 | Iterating the container yields uk, ru and en in that order, whatever an earlier iteration left behind. |
| LangPack.FromLangcodeOfCode | src/bot/lang_pack/container.py:17-20 | Each pack is selected by its own code. |
| LangPack.FromLangcodeIgnoresCase | src/bot/lang_pack/container.py:20 | The selection ignores letter case. |
| LangPack.FromLangcodeChoice | src/bot/lang_pack/container.py:12-20 | uk is chosen exactly for codes that lower-case to "uk" and en exactly for "en". The default ru is chosen for everything else, including a missing or empty code. |
| Retry.RetryableReasons | src/bot/utils.py:36-75 | Each documented reason makes an exception retryable: a network exception class, "429" in the message, a status code of 500 or more, or error code 503. |
| Retry.NotRetryableWithout | src/bot/utils.py:36-75 | An exception with none of the reasons is not retryable, and error code 501 is not one of them. |
| Retry.ClassificationIgnoresCase | src/bot/utils.py:48-66 | The classification gives the same answer for the lower-cased class name and message. |
| Retry.Backoff | src/bot/utils.py:78-84 | The wait after a failed attempt lies within the policy's [min, max] bounds. |
| Retry.RetryOutcomeWellFormed | src/bot/utils.py:78-84 | A retried call makes between one and the maximum number of attempts, and every earlier attempt raised a retryable error. It ends as its last attempt did: returned, raised a non-retryable error, or raised a retryable error on the last allowed attempt. The waits between attempts follow the backoff. |
| Retry.Run | src/bot/utils.py:78-84 | The retry loop produces exactly the outcome the policy's specification defines. |
| Retry.MessageRequest | src/bot/utils.py:85-110 | The request goes to the user's chat with the given text. It uses MarkdownV2 exactly when `markdown` is set, and it is silent exactly when the sound is disabled. |
| Retry.SendMessageWithRetry | src/bot/utils.py:78-110 | A send is the three-attempt, [1, 5] s, classified retry of that request. |
| Retry.SendAttempts | src/bot/utils.py:78-84 | A send makes one to three attempts. It fails after one attempt exactly when the first error is not retryable. |
| Retry.SendWaits | src/bot/utils.py:78-84 | The waits between send attempts are at most 1 s and then 2 s. |
| Retry.TransientTwiceThenSent | src/bot/utils.py:78-84 | Two transient failures followed by a success deliver on the third attempt. |
| Scheduler.IsRetryableExceptionNeverHolds | src/scheduler/main.py:21-28 | The scheduler's own predicate never holds: a lower-cased string cannot contain "TimedOut". |
| Scheduler.IsDeviceOn | src/scheduler/main.py:39-49 | Reading the plug is the five-attempt, [1, 10] s retry of the status query on any exception. When retries run out it becomes DeviceTimeoutError. |
| Scheduler.DeviceReadSemantics | src/scheduler/main.py:35-49 | The read makes one to five attempts. It times out exactly when all five raise, and a timeout is recorded as off. Otherwise it reports the answer of some attempt. |
| Scheduler.Values | src/db/models/status.py:9-17 | The values of the status rows, in order. |
| Scheduler.StatusLog.LastEventValue | src/scheduler/main.py:52-54 | The latest value is None exactly for an empty table, and otherwise the value of the newest row. |
| Scheduler.StatusLog.RecordEventIfChanged | src/scheduler/main.py:57-64 | A row is appended exactly when the table is empty or the last value differs from the reading, and the method reports whether it appended. The table keeps no two adjacent equal values. |
| Scheduler.RecordAllNoRepeats | src/scheduler/main.py:57-64 | For any series of readings, the log never holds two adjacent equal values. |
| Scheduler.RecordAllExtends | src/scheduler/main.py:57-64 | The log only grows, by at most one row per reading, and after a reading its last value is that reading. |
| Scheduler.RecordAllRepeat | src/scheduler/main.py:59-60 | Repeating the current value any number of times leaves the log unchanged. |
| Scheduler.RecordAllExample | src/scheduler/main.py:57-64 | The readings on, on, off, off, on record exactly on, off, on. |
| Scheduler.PollOnce | src/scheduler/main.py:67-87 | One poll records the read value, with a timeout counted as off, when it changed. A tick whose database session fails raises and leaves the log unchanged. |
| Scheduler.RunPollingLoop | src/scheduler/main.py:90-113 | Over any run of ticks, a failing tick is counted and the loop goes on. The log ends as the readings of the ticks that reached the database make it, and the error count is the number of the others. |
| PowerNotifications.NotificationTextFrame | src/bot/jobs/power_notifications.py:36-64 | The text opens with the header for the new state and ends with the footer. It carries an elapsed line exactly for a real change with a non-zero time difference. |
| PowerNotifications.NotificationTextSays | src/bot/jobs/power_notifications.py:36-64 | The text says "was on for" exactly for an on-to-off change and "was off for" exactly for an off-to-on change, in both cases with a non-zero difference. The span reads back as the phrase of the difference. |
| PowerNotifications.BindArguments | src/bot/utils.py:85-93 | A successful binding binds every parameter without a default. |
| PowerNotifications.CallAsWrittenRaisesTypeError | src/bot/jobs/power_notifications.py:67 | The positional call gives the helper's parameters the wrong values, and Python's binding fails with TypeError. |
| PowerNotifications.CallByKeywordBinds | src/bot/utils.py:85-93 | Passing the same values by keyword binds each parameter to its value and leaves `markdown` at its default. |
| PowerNotifications.SendAsWrittenNeverDelivers | src/bot/jobs/power_notifications.py:66-73 | As written, every notification send fails whatever the error raised at the call, after one or three attempts, and is logged. |
| PowerNotifications.AsWrittenTypeErrorFailsAtOnce | src/bot/jobs/power_notifications.py:66-73 | The TypeError the call as written raises is not retryable: its class name holds none of the classifier's words, and neither does its text. So every notification send fails after exactly one attempt. |
| PowerNotifications.NotificationsFor | src/bot/jobs/power_notifications.py:188-204 | There is one notification per user, in order. |
| PowerNotifications.NotificationsForSays | src/bot/jobs/power_notifications.py:76-103 | Each notification goes to its user in the user's language. It is silent exactly when it is night and the user turned night sound off. It carries the text for the change. |
| PowerNotifications.SendStatusNotification | src/bot/jobs/power_notifications.py:16-73 | Models the corrected send of the first Findings row, with the helper called by keyword (as written, the call at line 67 raises TypeError; see `CallAsWrittenRaisesTypeError`). A send ends as the retried request to that user, with the sound flag passed through. A failure is returned, not raised. |
| PowerNotifications.OptedIn | src/bot/jobs/power_notifications.py:168-174 | The selected users all have notifications enabled. None are selected exactly when no user has them enabled. |
| PowerNotifications.OptedInMembers | src/bot/jobs/power_notifications.py:168-174 | Exactly the users with notifications enabled are selected. |
| PowerNotifications.LatestTwo | src/bot/jobs/power_notifications.py:136-146 | The query returns the newest two statuses, newest first, or fewer when the table is shorter. |
| PowerNotifications.NoStatusesNoop | src/bot/jobs/power_notifications.py:142-146 | With no statuses, or when they cannot be read, a tick keeps the cursor and sends nothing. |
| PowerNotifications.CursorAdvancesToLatest | src/bot/jobs/power_notifications.py:152-212 | Once statuses are read, the cursor ends on the newest id. The exception is a pending change whose user table cannot be read: then the cursor stays put. |
| PowerNotifications.FirstTickAndSameIdSilent | src/bot/jobs/power_notifications.py:152-160 | The first tick only sets the cursor, and a tick whose newest id is the cursor sends nothing. Both leave the cursor on the newest id. |
| PowerNotifications.BroadcastIff | src/bot/jobs/power_notifications.py:152-204 | A tick sends something exactly when there is an unannounced change and the users can be read, with at least one user opted in. |
| PowerNotifications.OneNotificationPerOptedInUser | src/bot/jobs/power_notifications.py:163-204 | On a genuine change, one notification is planned per opted-in user, in order. It is for the change from the previous to the newest status, with the time between them taken modulo a day. |
| PowerNotifications.NoRenotify | src/bot/jobs/power_notifications.py:156-212 | A tick after one that broadcast, over the same statuses, announces nothing. |
| PowerNotifications.SendAll | src/bot/jobs/power_notifications.py:188-209 | There is one delivery per notification, each the outcome of its own send. A failure does not stop the others. Each send is the corrected send of the first Findings row. |
| PowerNotifications.Notifier.CheckAndSendNotifications | src/bot/jobs/power_notifications.py:106-218 | A tick moves the cursor as its plan says, whatever happens to the sends. It sends exactly the planned notifications. The sends are the corrected ones of the first Findings row. The cursor clauses hold for any Bot API behaviour, so they hold as written too, where every send fails. |
| PowerStatus.TimeSinceSays | src/bot/handlers/message/power_status.py:64-85 | The "time since" block is there exactly for a non-zero difference. It names the state's header and reads back as the phrase of the difference. |
| PowerStatus.StatusTextSays | src/bot/handlers/message/power_status.py:57-87 | The text names "power is on" and the turn-on label exactly for an on status, and the off forms otherwise. It shows the status's timestamp and ends with the "time since" block. |
| PowerStatus.PowerStatusReply | src/bot/handlers/message/power_status.py:19-92 | There is no reply without a user. Otherwise there is one reply in the user's language with the main keyboard. It is "status not available" exactly when there is no status, and uses Markdown exactly when there is one. |
| PowerStatus.NotAvailableUnreachableAsWritten | src/bot/handlers/message/power_status.py:44-54 | As written, a user asking while the table is empty gets AttributeError, never the "not available" reply. |
| GenStatus.GenMessageCases | src/bot/handlers/message/gen_status.py:83-105 | The message is one of the four generator-by-schedule cases, built from its parts, and never the "Error" fallback. |
| GenStatus.NextSwitchMinutesExact | src/bot/handlers/message/gen_status.py:67-81 | For a valid time, the next-switch minutes are the schedule's time to the next switch, in (0, 1440). |
| GenStatus.GenStatusReply | src/bot/handlers/message/gen_status.py:19-111 | There is no reply without a user, and at most one reply, in the user's language with the main keyboard. |
| GenStatus.GenStatusGates | src/bot/handlers/message/gen_status.py:45-60 | With the power on, the reply is "generator not required" whatever the generator status. With the power off, a missing generator status gives no reply. |
| GenStatus.GenStatusReplySays | src/bot/handlers/message/gen_status.py:69-111 | The reply holds the four-way message, and its suffix reads back as the split of the minutes to the next switch. |
| PiServer.NormalizePath | src/pi_server/main.py:26-31 | The result starts with "/" and ends with the given path. The empty path gives "/heartbeat". |
| PiServer.NormalizePathIdempotent | src/pi_server/main.py:26-31 | Normalising twice is normalising once. |
| PiServer.ValidateToken | src/pi_server/main.py:34-42 | The request is rejected with 401 exactly when the token differs from the configured one. |
| PiServer.BearerCredentials | src/pi_server/main.py:23 | The bearer dependency yields credentials exactly for an Authorization header of the form "Bearer <token>", case-insensitively, and refuses with 403 otherwise. |
| PiServer.BearerOfClientHeader | src/pi_client/main.py:32-36 | The header the client sends yields the client's token. |
| PiServer.TokenlessPingRefusedAsWritten | src/pi_server/main.py:81-88 | As written, a listener with no configured token still refuses a ping without a header (403). |
| PiServer.AuthorizeIntendedIff | src/pi_server/main.py:87-88 | With the corrected gate, a ping is admitted exactly when no token is configured or the bearer token equals it. |
| PiServer.FindRow | src/pi_server/main.py:53-54 | The lookup finds a row with the heartbeat id, or reports there is none. |
| PiServer.HeartbeatStore.GetOrCreateHeartbeat | src/pi_server/main.py:50-58 | Returns the existing row with id 1, or appends one. The table never holds two rows with that id. |
| PiServer.HeartbeatStore.ListenHeartbeat | src/pi_server/main.py:81-100 | Stated for both admission checks: the bearer dependency on every ping as written (`AsWrittenGate`, `Authorize`), and the corrected check of the third Findings row (`IntendedGate`, `AuthorizeIntended`). An admitted ping sets the heartbeat row's timestamp, keeps every other row and echoes the timestamp with status 200. A refused ping gets the check's refusal and changes nothing. |
| PiServer.Health | src/pi_server/main.py:103-105 | The health check always answers 200 with status ok. |
| PiClient.ClientPathAgreesWithServer | src/pi_client/main.py:14-16 | The client's path is the listener's normalisation of the stripped path. It starts with "/" and is "/heartbeat" when blank. |
| PiClient.BuildHeartbeatUrl | src/pi_client/main.py:10-17 | The URL is "http://", the stripped host, ":", the port and the normalised stripped path. |
| PiClient.BuildHeaders | src/pi_client/main.py:32-36 | There are headers exactly when a token is set, and then only "Authorization: Bearer <token>". |
| PiClient.ClientPingAuthorized | src/pi_client/main.py:32-36 | As written, a client ping is admitted exactly when the client has a token and the listener has none or the same one. With the corrected gate, a tokenless client is also admitted by a tokenless listener. |
| Users.FindUser | src/bot/utils.py:170-176 | The primary-key lookup finds a row with the id, or reports there is none. |
| Users.UserTable.GetUserFromDb | src/bot/utils.py:170-176 | A row is returned exactly when the table holds one with the id, and it is that row. |
| Users.UserTable.AddUser | src/bot/handlers/command/start.py:63 | Appending a row with a new id keeps ids unique. |
| Users.UserTable.SetRow | src/bot/handlers/callback_query/notifications.py:55-61 | Replacing a row by one with the same id changes that row only. |
| StartCommand.WelcomeNameOf | src/bot/handlers/command/start.py:37 | The greeting uses the first name, else the username, else the pack's word for "user". The last is used exactly when neither name is set. |
| StartCommand.NewUserRow | src/bot/handlers/command/start.py:53-64 | A new user takes the Telegram profile, is not an admin, and has notifications and night sound on. |
| StartCommand.Start | src/bot/handlers/command/start.py:14-84 | Without a user, nothing changes. A known user is greeted, with the stored language updated only when it differs, and the context is untouched. A new user gets the default row, the "enable notifications?" question, and the registering id in the context. |
| SettingsButton.HandleSettings | src/bot/handlers/message/settings.py:12-52 | Without a user, nothing happens. An unknown user gets "user not found" and an untouched context. A known user gets the question and both registration keys set. The user table is never written. |
| NotificationChoice.HandleNotificationChoice | src/bot/handlers/callback_query/notifications.py:19-75 | Without a registering id the reply is "session expired" and nothing changes. An unknown user gets "user not found". Otherwise only that user's notification flag is set, to whether the answer was "notif_yes". Enabling keeps the context and asks about night sound. Disabling shows the completion text and removes both keys. |
| NightSoundChoice.HandleNightSoundChoice | src/bot/handlers/callback_query/night_sound.py:19-69 | Without a registering id the reply is "session expired" and nothing changes. Otherwise only the user's night-sound flag is set, to whether the answer was "night_sound_yes". The completion text is built with notifications on, and the context is always cleaned up. |
| RegistrationFlow.RegisterNewUser | src/bot/handlers/command/start.py:53-83 | A new user who answers both questions ends with a row holding the answers and a clean context. The completion text ends with "registration completed". |
| RegistrationFlow.Reconfigure | src/bot/handlers/message/settings.py:41-52 | A known user who reconfigures gets the answers stored in their row and a clean context. The completion text never says "registration completed". |
| RegistrationFlow.AnswerNotifications | src/bot/handlers/callback_query/notifications.py:45-75 | Answering the notifications question, and then the night-sound one when notifications are enabled, stores the answers and ends with the completion text for them. |
| RegistrationFlow.AnswerNightSound | src/bot/handlers/callback_query/night_sound.py:45-69 | Answering the night-sound question stores the answer, cleans the context and ends with the completion text. |
| MsgAllCommand.AdminMessage | src/bot/handlers/command/msg_all.py:66 | The forwarded text is never longer than the command text. |
| MsgAllCommand.AdminMessageOfCommand | src/bot/handlers/command/msg_all.py:66 | For a body in which "/msgAll " does not occur, the forwarded text is exactly the body typed after "/msgAll ". |
| MsgAllCommand.RecipientsMembers | src/bot/handlers/command/msg_all.py:67-80 | Exactly the users other than the sender receive the message. |
| MsgAllCommand.RecipientsWithoutSender | src/bot/handlers/command/msg_all.py:67-80 | Without the sender in the table, everyone receives it. |
| MsgAllCommand.RecipientsCount | src/bot/handlers/command/msg_all.py:67-90 | With distinct ids, one user fewer than the table holds receives it, while the report counts the whole table. |
| MsgAllCommand.MsgAll | src/bot/handlers/command/msg_all.py:16-90 | Nothing is sent unless the sender is a known admin. Then each other user, in order, gets the retried send of the message, with Markdown on and sound on. The report says the table's size. |
| Replies.Say | src/bot/handlers/command/start.py:77-80 | A plain reply is a new message in the given pack, without Markdown. |

## Left out

- Telegram transport and the async runtime are left out: `bot.send_message`, tasks, `asyncio.gather`, the rate limiter and the semaphore. Sends are attempt functions, and gathered tasks are run one after another, so the model says nothing about interleaving or rate caps.
- Sleeps and tenacity's timer are left out. The model states the sequence of waits but does not wait.
- Time zones and date formatting (Kyiv time, `astimezone`, `strftime`) are left out. The hour, the weekday and "now" are inputs, and a formatted date is a `Timestamp` token.
- The SQLAlchemy sessions, engines and commits are left out. Tables are sequences of rows, and queries are lookups over them.
- The bot side of the model describes the evidently intended program. The source as written cannot run it, for the reasons in the next three lines.
- `get_username_from_update` (imported at src/bot/handlers/command/msg_all.py:11), `check_generator_schedule` (imported at src/bot/handlers/message/gen_status.py:13) and `button_rate_limited` (imported at src/bot/handlers/message/report_error.py:8) are not defined in src/bot/utils.py. Importing those handlers (src/bot/main.py:21, :23, :25) raises ImportError, so the bot process as written does not start. The model reads `check_generator_schedule` as the pair of schedule lookups, with the weekday as an extra input, and leaves out the admin command's log identity.
- The status table has no `label` column (src/db/models/status.py). The notification job (src/bot/jobs/power_notifications.py:138), the power-status handler (src/bot/handlers/message/power_status.py:41) and the generator-status handler (src/bot/handlers/message/gen_status.py:41, :54) all filter on it, and each of those queries would fail. The model treats the whole table as the power log for the notification job and the power-status handler. The generator-status handler takes the latest power status and the latest generator status as two separate inputs, as if the labels existed.
- The user model's column is `id_admin` (src/db/models/user.py:18), but `/start` passes `is_admin=False` to the `User` constructor (src/bot/handlers/command/start.py:53-62). SQLAlchemy's declarative constructor raises TypeError for an unknown keyword, so registering a new user fails as written. `/msgAll` reads `is_admin` (src/bot/handlers/command/msg_all.py:59), which would fail the same way. The model has one admin flag and registers new users as intended.
- Timestamps are whole seconds. `date_created` carries microseconds, and the source truncates the real difference (`int(total_seconds())` in the power-status handler, `.seconds` in the notification job). The model subtracts whole-second stamps, which can be one second above the truncated real difference. For example, statuses at 12:00:00.7 and 12:01:00.2 give 59 s ("0 min.") in the source but 60 s ("1 min.") in the model.
- The language packs' wording is left out: a text is named by its attribute. The source's emoji literals appear mis-encoded in the notification text; the model uses the intended coloured circles.
- Lower-casing and stripping are ASCII-only. Python's Unicode case mapping and whitespace set are not modelled.
- Missing-configuration branches are left out: no session factory, no bot application, no configured languages.
- `query.answer()` is left out. The model does not re-query the user between the handlers' two reads of a user, because it is sequential.
- The client sends a `label` query parameter that the listener ignores; the model leaves the parameter out.
- The heartbeat client's send loop, its HTTP client and its timeouts are left out. Only the URL and headers are modelled.
- The listener's `received_at` is an input. A newer FastAPI version answers a missing bearer header with 401 rather than 403; the model follows the 403 of the version the listener was written for.
- Keyboards and `build_button_pattern` are left out; keyboards are the `Markup` tags.
- Logging is left out everywhere.
- `MsgAllCommand.MsgAll`: the report counts every user in the table, the sender included, as the handler does.
- The `/msgAll` command text is only changed by removing every "/msgAll " occurrence. Telegram's bot-name suffixes (`/msgAll@bot`) are not modelled.

## Findings

| source | as written | input that shows it | evidently intended | confidence | as-written member | corrected member |
|---|---|---|---|---|---|---|
| src/bot/jobs/power_notifications.py:67 | The notification send passes (rate_limiter, semaphore, user_id, final_text, disable_sound) positionally to a helper whose parameters are (bot_app, semaphore, rate_limiter, user_id, message_text, disable_sound, markdown). The values land in the wrong parameters and `disable_sound` is left unbound, so every call raises TypeError. The error is caught and logged, and no notification is ever delivered. | any genuine power change with one opted-in user | the same values passed by keyword | high (not executed) | PowerNotifications.CallAsWrittenRaisesTypeError | PowerNotifications.CallByKeywordBinds |
| src/bot/handlers/message/power_status.py:44-48 | The log line reads the latest status's fields before the `None` check, so with an empty status table the handler raises AttributeError. | a user presses "power status" before the first status is recorded | the "status not available" reply | high (not executed) | PowerStatus.NotAvailableUnreachableAsWritten | PowerStatus.PowerStatusReply |
| src/pi_server/main.py:81-88 | The `HTTPBearer()` dependency (line 23, used at line 84) refuses a request without a bearer header before the handler runs. So a listener configured without a token still refuses the tokenless client, which sends no headers. | listener and client both with an empty HEARTBEAT_TOKEN | a tokenless listener admits every ping | medium (not executed; rests on HTTPBearer's default `auto_error`) | PiServer.TokenlessPingRefusedAsWritten | PiServer.AuthorizeIntendedIff |
