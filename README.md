# WhatsApp room dispatcher, modelled in Dafny

The service lets a website start bulk WhatsApp sends through the phone accounts
("senders") registered in one of its rooms. It has two cooperating parts.

**The dispatch runs.** These are started by `POST /send-messages` and
`POST /send-custom-messages` (`server.js`).
- The request is checked first, in a fixed order:
  - room token and website URL (401);
  - room active (400);
  - at least one active sender (400);
  - for custom sends, a non-empty `messages` array (400).
- Once every check passes, a run walks its message source with a paced
  round-robin loop:
  - each cycle visits the senders in list order;
  - a sender that is not ready is skipped;
  - a ready sender takes up to `max_sending_times` consecutive items;
  - every attempt is logged as `success` or `failed` (with the error message),
    and the cursor advances whatever the outcome;
  - a success bumps the sender's `total_sent` and the run's count;
  - a cycle that leaves items over is followed by the cycle delay.
- When the source is exhausted, the run record gets its end time and its total.
- A broadcast is the same loop over the items
  `(receivers[i], message_body || "Message from " + room.name)`.

**The client manager.** The `ClientManager` class (`clientManager.js`) keeps
three maps from sender id:
- the registered WhatsApp client;
- the latest QR challenge;
- readiness.

The client's `qr`, `ready` and `disconnected` events update these maps, and
`sendMessage` guards on them before calling the client.

The model is split into four modules:
- `Records` (`records.dfy`): the rows.
  - Rooms are values.
  - Sender rows and run records are classes updated in place.
- `Sessions` (`sessions.dfy`): the `ClientManager` class over `map` fields.
  - Each event handler is a method of its own.
  - `initializeSender` is split at its `await client.initialize()`: the events
    can fire before the client is registered.
- `Dispatch` (`dispatch.dfy`):
  - The loop is one method, `RunDispatch`, over a sequence of items. It is
    written as nested methods: `RunCycles`, then `Cycle`, then `RunCycle`,
    then `SendBurst`, then `AttemptItem`.
  - It is proved against a specification function, `RunSlots`, which gives the
    position of the sender that handles each item.
  - Readiness is an oracle: the set `ready` of (cycle, sender id) pairs for
    which `isReady` answers true.
  - Send outcomes are an oracle too: the map `failures`, from attempt index to
    the message of the error thrown.
- `Routes` (`routes.dfy`): the guard order of both endpoints, the reply each
  one sends, and the run it starts.
  - The handlers (`SendMessages`, `SendCustomMessages`) decide the reply for
    every request from the guards alone.
  - The run is a separate method, `StartRun`, called with the handler's
    admission. The source does not await it, so nothing about the run bears on
    the reply.

The loop ends exactly when some number of cycles hands out every item
(`Finishes`): after `c` cycles the cursor stands at the length of
`RunSlots(…, c)`. `RunDispatch` requires this condition and nothing stronger.
- `FairFinishes`: it holds when `maxPerSender >= 1` and a sender is always
  ready again in some later cycle. That is sufficient but not necessary:
  `ScenarioReadyOnce` finishes with one sender that is ready only once.
- `NoQuotaStalls`: with `maxPerSender` below one, no cycle hands out an item,
  so a non-empty source never finishes.
- `NeverReadyStalls`: with no sender ever ready, no cycle hands out an item
  either.

The chat-id normalisation uses `includes("@c.us")`, although the comment beside
it speaks of "ends with". The model follows the code, and
`ChatIdKeepsInnerSuffix` shows an id that is passed on unchanged without ending
in `@c.us`.

## Model

| member | source | states |
|---|---|---|
| `Records.SenderRow.constructor` | database.js:36-57 | A new sender row has no phone number, is active and has sent nothing |
| `Records.ProcessLog.constructor` | server.js:195-198 | A run record is created open (no end time) with count 0 |
| `Records.IsSet` | server.js:304 | JavaScript truthiness of a nullable string: set exactly when it is neither null nor empty (also `!sender.phone_number`, clientManager.js:40) |
| `Sessions.Includes` | clientManager.js:91 | `s.includes(part)` holds exactly when `part` occurs in `s` at some position |
| `Sessions.ChatId` | clientManager.js:91 | A number containing `@c.us` is passed unchanged; any other number gets exactly `@c.us` appended. Either way the chat id contains `@c.us` and starts with the number |
| `Sessions.ChatIdIdempotent` | clientManager.js:90-91 | Normalising twice is the same as normalising once |
| `Sessions.ChatIdKeepsInnerSuffix` | clientManager.js:90-91 | `"1@c.us2"` is passed unchanged although it does not end with `@c.us`: the check is `includes` |
| `Sessions.ClientManager.constructor` | clientManager.js:6-10 | All three maps start empty |
| `Sessions.ClientManager.InitializeSender` | clientManager.js:12-16 | A client is started exactly when the id is not registered yet; nothing changes (idempotence) |
| `Sessions.ClientManager.InitializeSettled` | clientManager.js:65-70 | The client is registered only when `initialize()` succeeded; the other maps are untouched |
| `Sessions.ClientManager.OnQr` | clientManager.js:28-32 | The latest QR replaces any earlier one and readiness becomes false; clients untouched |
| `Sessions.ClientManager.OnReady` | clientManager.js:34-47 | The QR is deleted and readiness becomes true; the phone number is set from the account only when previously unset and the account info exists |
| `Sessions.ClientManager.OnDisconnected` | clientManager.js:57-63 | The id leaves `clients` and `qrCodes`, and its readiness entry stays, set to false |
| `Sessions.ClientManager.GetQrCode` | clientManager.js:73-75 | The stored QR when there is one, else none; reads only |
| `Sessions.ClientManager.IsReady` | clientManager.js:77-79 | True exactly when an entry exists and is true; an id without an entry is not ready; reads only |
| `Sessions.ClientManager.SendMessage` | clientManager.js:81-94 | Throws "not found" without a client, otherwise "not ready" when not ready; only then is the client called, with the normalised chat id, and its failure propagated |
| `Sessions.ClientManager.StopSender` | clientManager.js:96-104 | No change for an unregistered id; otherwise the id leaves all three maps |
| `Sessions.ReadyBeforeRegistered` | clientManager.js:34-37 | A `ready` event before `initialize()` settles makes sends fail with "not found"; after registration they go through |
| `Sessions.DisconnectThenStop` | clientManager.js:96-102 | After a disconnect, `stopSender` is a no-op and the readiness entry stays false; stopping a registered id deletes the entry |
| `Sessions.InitializeTwice` | clientManager.js:13-16 | Initialising a registered id starts nothing and keeps the registered client |
| `Dispatch.OutcomeAt` | server.js:224-247 | An attempt throws exactly when the failure oracle names it, and the thrown message is the one the oracle gives |
| `Dispatch.StatusOf` | server.js:228-246 | The record's status is `success` exactly when the send went through; a thrown send gives `failed` with `err.message` |
| `Dispatch.Record` | server.js:228-246 | The attempt record carries the room, the sender, the receiver number and the status of the outcome |
| `Dispatch.BroadcastText` | server.js:304 | The broadcast text is the body when it is set (non-empty), else exactly "Message from " followed by the room name |
| `Dispatch.BroadcastItems` | server.js:301-304 | One item per receiver, in receiver order, each carrying the broadcast text |
| `Dispatch.Burst` | server.js:216-217 | A ready sender with items left takes at least one item and at most `maxPerSender`, never past the end of the source |
| `Dispatch.CycleSlots` | server.js:206-214 | A cycle never hands out more items than remain, and hands out none once the source is exhausted |
| `Dispatch.RunSlots` | server.js:204-258 | The first `cycles` cycles never hand out more items than the source holds |
| `Dispatch.RunSlotsStep` | server.js:204-206 | Each cycle continues the schedule from where the earlier cycles left the cursor |
| `Dispatch.CycleStep` | server.js:206-216 | A sender's turn extends the cycle's schedule by its burst, taken at the current cursor |
| `Dispatch.NextReadyCycle` | server.js:211-214 | Under fairness, some cycle at or after any given one has a ready sender |
| `Dispatch.NextTarget` | server.js:204-258 | Under fairness, while items remain a cycle with a ready sender lies ahead; a cycle that moved nothing keeps it in place |
| `Dispatch.FinishedStaysFinished` | server.js:204-207 | Once every item is handed out, later cycles hand out nothing more, so the loop's cycle count never passes the first finishing one |
| `Dispatch.FairFinishes` | server.js:204-258 | With `maxPerSender >= 1` and a sender always ready again later, the loop ends |
| `Dispatch.CycleSlotsReady` | server.js:211-214 | Every item of a cycle goes to a sender that was ready in that cycle: a sender that is not ready takes nothing |
| `Dispatch.CycleSlotsInSenderOrder` | server.js:206 | Within a cycle the senders take items in list order: once a later sender has taken an item, no earlier one takes another |
| `Dispatch.CycleBurstBound` | server.js:216-217 | No sender takes more than `maxPerSender` consecutive items in a cycle |
| `Dispatch.CycleProgress` | server.js:216-249 | A cycle that starts with items left and has a ready sender moves the cursor |
| `Dispatch.CycleSaturated` | server.js:207 | Leaving the sender loop once the source is exhausted is the same as finishing it |
| `Dispatch.CycleWithoutReadyIsEmpty` | server.js:211-214 | A cycle with no ready sender hands out nothing |
| `Dispatch.StalledCycle` | server.js:204-214 | A cycle that starts with items left and hands out nothing had no ready sender |
| `Dispatch.NeverReadyStalls` | server.js:283-295 | When no sender is ever ready, no cycle ever hands out an item, so a non-empty source never finishes |
| `Dispatch.CycleWithoutQuotaIsEmpty` | server.js:298 | With `maxPerSender` below one, even ready senders take nothing |
| `Dispatch.NoQuotaStalls` | server.js:216 | With `maxPerSender` below one, no cycle ever hands out an item, so a non-empty source never finishes |
| `Dispatch.ScenarioOneSenderBurstTwo` | server.js:204-251 | One always-ready sender, bursts of 2, five items: the cycles take 2, 2 and 1 items |
| `Dispatch.ScenarioTwoSendersAlternate` | server.js:283-334 | Two always-ready senders, bursts of 1: they alternate item by item |
| `Dispatch.ScenarioReadyOnce` | server.js:204-258 | One sender ready only in the first cycle, with a burst covering two items: the loop ends after one cycle, though fairness fails |
| `Dispatch.SuccessesPartition` | server.js:235-237 | When every attempt was made by one of the listed distinct senders, the run's successes are the sum of each sender's successes |
| `Dispatch.LoggedAppend` | server.js:228-249 | Recording the next attempt extends the log and keeps every earlier record |
| `Dispatch.LoggedAt` | server.js:219-247 | Each logged attempt was the call for its item, by its slot's sender, with the matching record |
| `Dispatch.LoggedBySenders` | server.js:219-249 | The log holds one record per item in source order, each with the sender that sent it and its outcome |
| `Dispatch.RunSuccessesBySender` | server.js:235-237 | The run's count equals the sum of its senders' success counts |
| `Dispatch.TalliedCounters` | server.js:316-319 | Each sender's counter has grown by exactly its own successes |
| `Dispatch.AttemptItem` | server.js:219-249 | One attempt adds exactly one record and advances by one. A success bumps this sender's counter and the run's count; a failure is recorded with its message. No other counter changes |
| `Dispatch.SendBurst` | server.js:216-251 | A ready sender's turn attempts exactly its burst of consecutive items, stopping at the end of the source |
| `Dispatch.RunCycle` | server.js:206-252 | A cycle attempts exactly the items its schedule assigns, in sender order |
| `Dispatch.Cycle` | server.js:204-257 | One pass of the outer loop extends the schedule by a cycle. The cycle delay is taken exactly when items remain |
| `Dispatch.RunCycles` | server.js:203-258 | On exit every item has been attempted exactly once, in schedule order. The run's count equals its successes, and each counter has grown by its sender's successes |
| `Dispatch.RunDispatch` | server.js:191-264 | For every input on which the loop ends: a run makes exactly one attempt per item, in source order, by the scheduled sender. The run record is finalised after the loop with the success count. Counters grow by each sender's own successes; nothing else in the rows changes |
| `Routes.FindRoom` | server.js:141 | The room lookup is the first row matching both token and website URL, none when no row matches |
| `Routes.FindRoomUnique` | server.js:167 | With unique tokens, the lookup returns the one room matching both fields |
| `Routes.ActiveSenders` | server.js:150 | The sender lookup returns exactly the active senders of the room, in table order |
| `Routes.ActiveSendersPrefix` | server.js:176 | The sender lookup keeps table order |
| `Routes.ActiveSendersDistinct` | database.js:36-40 | The senders of a room have distinct ids |
| `Routes.RoomGate` | server.js:141-153 | The shared guards, in order: 401 for an unknown room, then 400 for an inactive room, then 400 for a room with no active sender |
| `Routes.ValidateBroadcast` | server.js:136-157 | `/send-messages` rejects exactly as the room guards do; otherwise it broadcasts to every receiver |
| `Routes.ValidateCustom` | server.js:163-186 | `/send-custom-messages` applies the room guards first; then a missing, non-array or empty `messages` gets 400; otherwise it runs those messages |
| `Routes.RoomGuardsFirst` | server.js:167-183 | A request the room guards refuse gets the same error from both endpoints, whatever its messages |
| `Routes.AdmittedSenders` | server.js:150-153 | Every admitted run has at least one sender; all are active senders of the (active) room, with distinct ids |
| `Routes.SendMessages` | server.js:136-160 | For every request: the room guards' error when they refuse it, otherwise "Message sending process started", whatever the run will do |
| `Routes.SendCustomMessages` | server.js:163-189 | For every request: the room guards' error, then 400 for an invalid `messages`, otherwise "Custom message sending process started", whatever the run will do |
| `Routes.StartRun` | server.js:155-157 | A rejected request starts nothing and changes no row. An admitted one runs the dispatch: item i gets exactly one record, written by one of the admitted senders, with `success` or `failed` and the error message as attempt i turned out. Each admitted sender's counter grows by its successes, and every other sender row stays as it was |

## Left out

- Sleeps and timers (`sleep(1000)` between attempts, `sleep(delay * 1000)` between cycles) are not modelled. Only whether the cycle delay is taken is modelled, as `Cycle`'s `paused` result.
- Dispatch.RunDispatch: does not count the cycle delays of a whole run, because a counter kept across cycles makes the proof too costly. `Dispatch.Cycle` states for each pass that the delay is taken exactly when items remain.
- Dispatch.CycleBurstBound: states the burst bound as "no `maxPerSender + 1` consecutive items of a cycle go to one sender". It is not stated as a per-sender count. `CycleSlotsInSenderOrder` (each sender's items in a cycle are consecutive) gives the count together with it.
- Readiness and send outcomes are oracles (`ready`, `failures`), not derived from the `ClientManager` maps. Events can fire at any time during a run, so any pattern is possible.
- Dispatch.RunDispatch: requires `Finishes`, the exact condition under which the source's loop ends. A run that never ends, such as one with `max_sending_times: 0`, is not modelled as a method, because a Dafny method must terminate. `NoQuotaStalls` and `NeverReadyStalls` state what such a run does: it hands out nothing, cycle after cycle.
- Background execution: the handlers reply without waiting for the run. The model separates the two: the handler methods decide the reply, and `StartRun` is the run. Their interleaving in time is not modelled.
- Persistence failures are not modelled:
  - `sender.save()` throwing after a delivered send (server.js:236, 317). The success record is already written and `total_sent` already bumped in memory. The `catch` then adds a second record, `failed`, for the same item, and the run's count is not incremented.
  - The success `MessageLog.create` throwing after a delivered send (server.js:228, 308). No success record is written and the counters are not bumped. The `catch` logs the delivered message as `failed`. If that second `create` throws as well, the run aborts.
  - `ProcessLog.create` and `log.save()` failing.
- database.js exports no `MessageLog`. The attempt log is modelled as the intended append-only sequence of records that the run returns.
- Request field coercion is not modelled. `max_sending_times` and `delay_seconds` are taken as integers. A missing `receivers` field is not modelled either: in the source it throws inside the background run. Message items lacking `number` or `message` are not modelled.
- Timestamps are parameters (`startTime`, `endTime`).
- Table order: `Room.findOne` and `Sender.findAll` are modelled as scans in table order. Room tokens are unique (`FindRoomUnique`).
- The whatsapp-web.js `Client`, `LocalAuth` and puppeteer are not modelled:
  - a client is a token;
  - whether `initialize()` succeeds is a parameter;
  - the outcome of `client.sendMessage` is a parameter;
  - `client.destroy()` is not modelled.
- The `authenticated` and `auth_failure` events only log, so they are not modelled. Neither is the `sender.save()` in `ready`.
- Concurrency is not modelled: neither runs overlapping on a shared sender nor the interleaving of async event callbacks. Events are discrete sequential methods.
- Express routing, body parsing, HTML and QR rendering, the sender toggle and delete routes, the analytics route, the demo script index.js and console logging are not modelled.
