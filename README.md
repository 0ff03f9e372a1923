# telegram-tracking-bot, modelled in Dafny

This project models the core of a Telegram bot that follows parcel tracking numbers.

- **Subscriptions.** A user subscribes to a tracking key (tracking number, carrier) under a display name of their own.
- **Polling.** A recurring job per key polls the carrier. Each event not seen before is stored in the event history, and every subscriber of the key gets one message listing the new events.
- **Administration.** Users can delete a subscription, or ask for the history stored so far.

The model covers these modules:

- `Database` (`database.dfy`) holds the SQLite store as a class with two tables: `trackNums` (subscriptions) and `trackInfo` (event history). Each table is a sequence of rows in insertion order. Each query is a method over those sequences:
  - a `WHERE` clause is `Seqs.Filter`;
  - `fetchone()` is `Seqs.First`, the earliest matching row;
  - an `INSERT` is an append;
  - a `DELETE` keeps the rows that do not match.
- `Scheduler` (`scheduler.dfy`) is the job registry. It is a map from job id to `Job`, where the id is `tracknum + company`. It also holds the ingestion job `_update_tracking`:
  - `Ingest` specifies the deduplicating insert loop.
  - `FreshRows` is an independent reference definition of the new events.
  - `Poll` specifies one firing: the history afterwards and the messages sent.
- `Notify` (`notify.dfy`) is `send_update`. `Deliver` and `Fanout` specify the messages, and `Bot.outbox` records every message sent.
- `Handlers` (`handlers.dfy`) holds the conversation steps that validate or write: `get_name`, `final`, and the delete and info options of `option_handler`.
- `Keyboard` (`keyboard.dfy`) is `_make_keyboard`. It is specified by the reference layout `Chunks`, and `PlaceVolver` specifies where the back button goes.
- `Seqs` and `Wrappers` hold the generic helpers: filter, map, first match, `Option`, and Python truthiness.

The model keeps these inputs and exceptions explicit:

- The carrier's answer is an input of type `Option<seq<Row>>`. `None` stands for a failed request or an unsupported carrier.
- A timer firing is an explicit call of `Sched.Fire`.
- A Python exception is a `false` success flag or a `None` result. This covers:
  - iterating a missing event list;
  - indexing a missing name row;
  - the keyboard's `raise`;
  - the keyboard's index and modulo errors.

The model follows these quirks of the code:

- `del_tracknum_user` and `check_anyone_else_has_tracknum` ignore the company.
- `add_tracknum` lower-cases the company, but the lookups compare it as given.
- `get_existing_info` returns `None` for a key without history, and sending that to the user raises.
- When the job already exists, registering sends the new subscriber the carrier's current answer (`fetched`), fetched again. It does not read the stored history.

The model also keeps these consequences of the code:

- **Start-up jobs run at once.** The jobs added again at start-up (`_add_existing_tracknums`) also get an immediate first run (`next_run_time=now`).
- **One missing name stops the fan-out.** The code does not isolate recipients: if a recipient has no name row, the name lookup raises and nobody after that recipient is served. A send that fails in the messaging library would stop the fan-out the same way; that case is not modelled (see "## Left out").
- **Deleting can leave an orphan job.** The delete's garbage collection counts the rows carrying the tracking number across users and companies. It can therefore keep a job that has no subscriber left (`DeleteMayKeepOrphanJob`). This needs the tracking number to be followed under two carriers, by one user or by two. Only "oca" is supported, so every row of a number then belongs to the same key, and a shared number means another subscriber of that key remains. Colliding job ids (`CollidingKeyIsNotPolled`) likewise need two carrier codes.

## Model

| member | source | states |
|---|---|---|
| Database.Lower | telegram-tracking-bot/database.py:56 | the company as stored: same length, each ASCII capital replaced by its lower-case letter, everything else kept |
| Database.LowerIsLower | telegram-tracking-bot/database.py:56 | a lower-cased company holds no capital letter, and lower-casing again changes nothing |
| Database.LowerFixes | telegram-tracking-bot/database.py:56 | a company without capitals (such as the carrier code "oca") is stored unchanged |
| Database.Database.AddTracknum | telegram-tracking-bot/database.py:46-59 | exactly one subscription row is appended with the company lower-cased; there is no uniqueness check |
| Database.Database.AddTracknumInfo | telegram-tracking-bot/database.py:61-84 | returns true iff the identical 5-tuple was absent; the history becomes the insert-if-absent of the tuple, so it is unchanged when the method returns false |
| Database.InsertIfAbsentStores | telegram-tracking-bot/database.py:68-84 | after the insert the tuple is stored, no stored row is lost, and the table grows by one row exactly when the tuple was new |
| Database.InsertIfAbsentKeepsDistinct | telegram-tracking-bot/database.py:68-84 | one insert keeps a duplicate-free history duplicate-free |
| Database.InsertAllKeepsDistinct | telegram-tracking-bot/database.py:61-84 | any sequence of inserts keeps a duplicate-free history duplicate-free, and every offered tuple ends up stored |
| Database.InsertAllKeeps | telegram-tracking-bot/database.py:61-84 | a sequence of inserts never loses a stored row |
| Database.Database.CheckTracknumInfoExists | telegram-tracking-bot/database.py:182-206 | true iff the identical 5-tuple is in the history |
| Database.Database.DelTracknumUser | telegram-tracking-bot/database.py:87-97 | removes every row of the user with the tracking number whatever its company, keeps every other row in order, and leaves the history alone |
| Database.DelUserKeepsOthers | telegram-tracking-bot/database.py:91-97 | a row of another user or another tracking number survives the delete |
| Database.Database.DelTracknumInfo | telegram-tracking-bot/database.py:99-109 | removes exactly the history rows whose tracking number and company both match, keeping the others in order; subscriptions are untouched |
| Database.Database.CheckTracknumExists | telegram-tracking-bot/database.py:112-135 | the name of the earliest row for (user, tracknum, company), or None when there is no such row |
| Database.Database.CheckNameExists | telegram-tracking-bot/database.py:137-159 | the tracking number of the earliest row for (user, name), or None when there is no such row |
| Database.Database.CheckAnyoneElseHasTracknum | telegram-tracking-bot/database.py:161-180 | true iff two distinct rows carry the tracking number, whatever their user and company |
| Seqs.FilterHasTwo | telegram-tracking-bot/database.py:175-180 | a query result has more than one row iff two positions of the table match |
| Seqs.First | telegram-tracking-bot/database.py:130 | `fetchone`: None iff no row matches, otherwise the earliest matching row |
| Database.Database.GetUserTracknums | telegram-tracking-bot/database.py:209-219 | (tracknum, name) of each of the user's rows in table order; each pair comes from one of the user's rows, and every such row is listed |
| Database.Database.GetTracknumsAndCompany | telegram-tracking-bot/database.py:221-229 | one (tracknum, company) per subscription row, duplicates included, in table order |
| Database.Database.GetIdsForTracknum | telegram-tracking-bot/database.py:231-246 | the user of each row of the key, one per row, in table order; each id belongs to a row of the key and every such row's user is listed |
| Database.Database.GetTracknumName | telegram-tracking-bot/database.py:248-260 | the name of the earliest row for (user, tracknum, company); None (the raise on a missing row) iff there is no such row |
| Database.NameForFirstRow | telegram-tracking-bot/database.py:252-260 | the name lookup yields the name of the earliest row for the subscriber and key, and nothing exactly when there is no such row |
| Database.Database.GetTracknumAndCompanyByName | telegram-tracking-bot/database.py:262-273 | the (tracknum, company) of the earliest row for (user, name), or None when there is no such row |
| Database.Database.GetExistingInfo | telegram-tracking-bot/database.py:275-296 | the key's events in stored order; None exactly when the key has no history, and a result that is never an empty list |
| Database.SubscribersAreNamed | telegram-tracking-bot/database.py:231-260 | every id listed for a key has a name row for that key |
| Notify.EventsTextAppend | telegram-tracking-bot/bot.py:331-339 | the event list renders the events in order: rendering distributes over concatenation |
| Notify.HeaderTellsNewFromExisting | telegram-tracking-bot/bot.py:342-345 | each text starts with its header, and a new-information text never equals an existing-information text |
| Notify.DeliverCompletes | telegram-tracking-bot/bot.py:346-353 | the fan-out completes iff every recipient has a name row; it then sends one message per recipient; otherwise it stops at the first recipient without a name, having served exactly the recipients before it |
| Notify.DeliverMessages | telegram-tracking-bot/bot.py:346-353 | the k-th message goes to the k-th chat id with text = header + "name (tracknum)\n" + "\n" + the event blocks |
| Notify.FanOutToSubscribersCompletes | telegram-tracking-bot/bot.py:346-353 | every subscriber row of the key has a name row, so no name lookup of the fan-out raises: it sends one message per subscriber row, in table order |
| Notify.Bot.SendUpdate | telegram-tracking-bot/bot.py:325-353 | the outbox grows by exactly the fan-out's messages; a missing event list sends nothing and reports the raise |
| Scheduler.JobIdCollides | telegram-tracking-bot/scheduler.py:31-38 | two distinct (tracknum, company) pairs can share one job id |
| Scheduler.CollidingKeyIsNotPolled | telegram-tracking-bot/scheduler.py:31-40 | for any two keys with the same job id, adding the second leaves the registry as the first left it, and a job created for the first polls the first key, so the second key gets no job of its own (colliding keys need two carrier codes; only "oca" ships) |
| Scheduler.EnsureJobsSpec | telegram-tracking-bot/scheduler.py:27-40 | after ensuring jobs for a list of keys, the ids are the old ids plus one per key; old jobs are unaltered; each new job polls a listed key every 30 minutes, starting at once |
| Scheduler.Sched.constructor | telegram-tracking-bot/scheduler.py:7-22 | the registry starts with one job per distinct id among the stored subscriptions, and nothing is sent |
| Scheduler.Sched.AddTracknumJob | telegram-tracking-bot/scheduler.py:27-46 | a job with id tracknum+company, a 1800 s interval and an immediate first run is added iff the id is free, and an existing job is never altered; when the job exists and the id is truthy, exactly the fan-out of the fetched answer to [id] with new=False is sent; otherwise nothing is sent |
| Scheduler.Sched.DelTracknumJob | telegram-tracking-bot/scheduler.py:48-50 | removes the job with id tracknum+company and no other |
| Scheduler.Sched.AddExistingTracknums | telegram-tracking-bot/scheduler.py:52-60 | ensures a job for each stored (tracknum, company), in table order, and sends nothing |
| Scheduler.FreshRowsAreFetched | telegram-tracking-bot/scheduler.py:76-84 | every new event was fetched and was not stored before |
| Scheduler.FreshRowsCover | telegram-tracking-bot/scheduler.py:76-84 | every fetched event was either stored before or is among the new events |
| Scheduler.FreshRowsDistinct | telegram-tracking-bot/scheduler.py:76-84 | no event is reported new twice |
| Scheduler.StoredOrFetched | telegram-tracking-bot/scheduler.py:76-84 | during the loop, an event's tuple is in the history exactly when it was stored before or fetched earlier in the same answer |
| Scheduler.IngestIsFresh | telegram-tracking-bot/scheduler.py:76-84 | the loop's `new_info` is the subsequence of fetched events, in fetched order, not stored before and not fetched earlier; the history becomes the old history plus exactly those events |
| Scheduler.IngestNewRows | telegram-tracking-bot/scheduler.py:76-84 | an event is in `new_info` iff it was fetched and its tuple was not stored before; `new_info` has no repeats |
| Scheduler.IngestStoresAll | telegram-tracking-bot/scheduler.py:76-84 | afterwards every fetched event is stored, and the old history is a prefix of the new one |
| Scheduler.IngestStored | telegram-tracking-bot/scheduler.py:76-84 | an answer whose events are all stored changes nothing and reports nothing |
| Scheduler.IngestIdempotent | telegram-tracking-bot/scheduler.py:76-84 | ingesting the same answer a second time stores and reports nothing |
| Scheduler.IngestKeepsDistinct | telegram-tracking-bot/scheduler.py:76-84 | a duplicate-free history stays duplicate-free through ingestion |
| Scheduler.IngestTwoSnapshots | telegram-tracking-bot/scheduler.py:76-84 | starting from an empty history, answers [A] and then [A, B], for any two distinct events: the first run stores and reports A; the second reports only B, and the history holds A then B |
| Scheduler.PollFailedFetch | telegram-tracking-bot/scheduler.py:68-74 | a failed or empty answer writes no history and sends nothing |
| Scheduler.PollNotifiesSubscribers | telegram-tracking-bot/scheduler.py:87-94 | a send happens iff `new_info` is non-empty; then one message goes to each subscriber row of the key, in table order, under the new-information header, carrying all the new events in fetched order |
| Scheduler.PollIdempotent | telegram-tracking-bot/scheduler.py:62-94 | two firings with the same answer: the second stores and sends nothing |
| Scheduler.Sched.UpdateTracking | telegram-tracking-bot/scheduler.py:62-94 | the history and the outbox afterwards are exactly those of one poll of the key with the given answer |
| Scheduler.Sched.Fire | telegram-tracking-bot/scheduler.py:33-39 | a firing of a registered job polls the key the job was created for; an id with no job changes nothing |
| Handlers.GetName | telegram-tracking-bot/bot.py:105-133 | an empty number is refused; a number the user already follows for the company under a non-empty name is refused with that name; otherwise it is accepted; nothing is written |
| Handlers.Final | telegram-tracking-bot/bot.py:135-177 | an empty name and a name the user already uses are refused, and nothing is written or sent; otherwise one row (company lower-cased) is added, then a job is ensured with the chat id, with that step's sends |
| Handlers.RegistrationOnExistingJobNotifies | telegram-tracking-bot/bot.py:164-175 | when the job exists and the company is lower case: if the carrier answered, registering sends the new subscriber exactly one existing-information message; if the fetch failed (`None`), nothing is sent and the step reports the raise |
| Handlers.RegistrationWithUpperCaseCompanyFindsNoName | telegram-tracking-bot/bot.py:164-175 | with company "OCA" the stored row reads "oca", the name lookup fails, and that send raises without sending |
| Handlers.OptionHandler | telegram-tracking-bot/bot.py:259-287 | delete: the job and the key's history go only when no two rows carry the number, which is checked before the user's rows are deleted; the user's rows for the number always go. info: the key's stored history goes to the user under the existing-information header, and it raises when there is none. Any other choice changes nothing |
| Handlers.DeleteOfLastSubscriberLeavesNone | telegram-tracking-bot/bot.py:266-274 | when the user's row is the only one with the number, no row with the number remains after the delete |
| Handlers.DeleteMayKeepOrphanJob | telegram-tracking-bot/bot.py:266-274 | a number followed under two companies, by one user or by two, counts as shared, so the job of the deleted key stays although no row of that key remains (this needs a second carrier; only "oca" ships) |
| Keyboard.FlattenChunks | telegram-tracking-bot/bot.py:374-388 | the rows, read in order, are the buttons in input order |
| Keyboard.ChunkSizes | telegram-tracking-bot/bot.py:380-388 | every row but the last has exactly `columns` buttons and the last has 1 to `columns`; there are ceil(n/columns) rows; the last row is full iff `columns` divides n |
| Keyboard.ChunksSnoc | telegram-tracking-bot/bot.py:384-388 | one more button opens a new row when the count so far is a multiple of `columns`, else it joins the last row |
| Keyboard.ChunksOfOne | telegram-tracking-bot/bot.py:380-381 | with one column every button is a row of its own |
| Keyboard.VolverPlacement | telegram-tracking-bot/bot.py:390-397 | with the back button, the rows read the buttons then "Volver" (n+1 in all); it joins the last row when that row is short, else it forms a row of its own |
| Keyboard.MakeKeyboard | telegram-tracking-bot/bot.py:356-399 | raises iff names and callbacks differ in length, or a zero column count meets buttons, or the back button is asked for with no buttons; otherwise the grid is the reference layout, with the back button placed as above |

## Left out

- `providers.py` is not part of this model: the HTTP request, JSON decoding and time-zone conversion. The carrier's answer is an input.
- `main.py` is not part of this model: argument handling and wiring.
- Telegram plumbing is left out: dispatcher registration, the conversation state machine and callback answering. The entry steps `get_company`, `get_tracknum`, `admin` and `tracknum_options` only read or show menus and are not modelled.
- Conversation prompts are left out: the texts sent back to the user during a conversation are the results of the handler methods, not outbox messages.
- The scheduler's background thread, real time and `coalesce` are left out. A firing is an explicit `Fire` call.
- Sched.DelTracknumJob: removing an id that has no job is modelled as doing nothing; the library's behaviour there is not visible.
- Locks, SQLite transactions and the non-atomic check-then-insert of `add_tracknum_info` are left out: every operation is sequential.
- Database.Lower: it folds ASCII capitals only; Python's full Unicode lower-casing is not modelled.
- Keyboard.MakeKeyboard: a negative column count is not modelled, because every caller passes 1 or 2.
- `fetchone` and `fetchall` return rows in insertion order in this model. SQLite does not promise this without `ORDER BY`.
- Notify.Deliver: `send_message` is modelled as never failing. In the code a send that raises (a chat that blocked the bot, a network error) ends the loop at that recipient; when the send comes from `_update_tracking` the new events are already stored, so the next poll finds them stored and the later subscribers never receive them.
- Logging and the table creation (`_make_tables`) are left out.
