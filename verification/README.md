# Digital-signage backend: a Dafny model

The backend manages digital-signage screens. An administrator groups screens
("devices") into setups. A setup holds weekly playlists of images and videos.
A screen is activated with a nine-digit code. Afterwards it keeps an
instruction stream open and is told to reload its setup whenever that setup
changes.

This project models the core of that backend as pure functions over one
state, and proves properties of them. The state has a relational part: the
devices, setups, playlists, images and videos tables. It also has a Redis
part:

- the activation-code counter;
- the subscriber count of every pub/sub channel;
- the `online_devices` set;
- a log of every message published.

Each HTTP handler is a function that returns either the new state or the
reason it refuses (the HTTP status). A refusal carries no state, because
every handler commits all of its writes or none of them.

| file | module | what it holds |
|---|---|---|
| outcomes.dfy | Outcomes | `Option`, the refusal reasons with their status codes, `Result`, `Check` |
| tables.dfy | Tables | an auto-increment table: rows by id, next id; insert, update, delete |
| schemas.dfy | Schemas | request models: field bounds, the `HH:MM` validator, decimal codes, `to_setup_model` |
| store.dfy | Store | rows, channels, messages, the Redis record, the state and its invariant |
| schedule.dfy | Schedule | the per-day overlap check of a setup's playlists and the no-overlap theorem |
| setups.dfy | Setups | `create_setup` |
| setup_edits.dfy | SetupEdits | `delete_setup`, `update_setup` |
| devices.dfy | Devices | `create_device`, `update_device_info`, `delete_device`, the snapshot instruction, the instruction-stream presence effects, the first frame of the status stream |
| activation.dfy | Activation | the activation-code counter, the code-status stream guard, its frames and its clean-up |

## How the state is modelled

- A time of day is the number of minutes since midnight. Under the
  `time.fromisoformat` of Python 3.10, the time fields accept exactly the
  five-character `HH:MM` renderings of such a number.
- A playlist carries seven day flags, Monday first.
- Request bodies are assumed to pass their models' field constraints, the
  `*Ok` predicates of `Schemas`:
  - names are 1..256 characters;
  - a device name or location is 1..255 characters;
  - an image has a non-empty url and a duration of at least 1;
  - a video has a non-empty url;
  - a `SetupInput` has a non-empty playlist list;
  - an activation code lies in [100_000_000, 999_999_999];
  - a `DeviceUpdate` setup id, when given, is at least 1;
  - a snapshot url is non-empty.

  A request that fails them is answered 422 before any handler runs.
- `Store.Valid` is the invariant the handlers keep:
  - every row satisfies its bounds;
  - device names, device api keys and setup names are unique;
  - every foreign key points at a stored row;
  - the counter lies in [100_000_001, 999_999_998].
- The database is MySQL through pymysql: models/__init__.py:16 fixes the
  engine, and only the credentials, host and database name come from the
  environment. The model assumes InnoDB tables, which enforce foreign keys,
  so `update_device_info` with an unknown setup id fails at commit with a
  500.
- Names are compared as exact strings. MySQL compares them under the
  column's collation, which by default ignores case and accents; see the
  lines for Devices.CreateDevice, Devices.UpdateDeviceInfo and
  Setups.CreateSetupWrites under "Left out".
- An explicit `null` for a device's name or location passes the request
  model but violates NOT NULL at commit, also a 500.
- Redis channels:
  - `device:{id}:instructions` is `Instructions(id)`;
  - `devices:status` is `DeviceStatus`;
  - an activation code's channel is `CodeChannel` of its decimal rendering.

## Model

| member | source | states |
|---|---|---|
| Schemas.ValidateTime | models/setup.py:58-75 | a time is accepted exactly when it is the HH:MM rendering of a minute of the day; a value shorter than five characters gets pydantic's at-least message, a longer one its at-most message, and a five-character non-time the validator's format message |
| Schemas.ClockOfMinutes | models/setup.py:68-75 | reading an accepted time and rendering it again gives the same string, so comparing times as strptime values is comparing minutes |
| Schemas.DecimalRoundTrip | routers/device.py:48-49 | the decimal channel name of a code reads back as the code, so different codes listen on different channels |
| Schemas.CodeHasNineDigits | models/device.py:27 | every code within the DeviceInput bounds is written with exactly nine digits |
| Schemas.ToSetupModel | models/device.py:45-49 | the summary keeps the id; its data is the name, then " - ", then the location |
| Schedule.NamesUniqueIffPairwiseDistinct | routers/setup.py:84-89 | the test "list length equals set size" holds exactly when no two playlists share a name |
| Schedule.SetSizeDetectsRepeats | routers/setup.py:85 | a sequence's set of elements is never larger than the sequence, and is as large exactly when it has no repeats |
| Schedule.OnDay | routers/setup.py:104 | the day's list holds exactly the playlists flagged for that day |
| Schedule.SortPermutes | routers/setup.py:107 | sorting by start time is a permutation of the day's list |
| Schedule.SortIsSorted | routers/setup.py:107 | the sorted list is ordered by start time |
| Schedule.FirstClash | routers/setup.py:110-117 | the loop reports the first neighbouring pair whose end lies after the next start, or none when every pair is in order |
| Schedule.CheckDays | routers/setup.py:101-117 | the check passes exactly when, on every day, each sorted playlist ends at or before the next one starts; a refusal names one of the seven days |
| Schedule.DaysOkEveryDay | routers/setup.py:101 | the day loop passes exactly when every single day passes |
| Schedule.ChecksPassImpliesNoOverlap | routers/setup.py:101-136 | playlists that start before they end and pass the check never overlap on a shared day (touching is allowed); this holds even when the list holds two copies of one playlist |
| Schedule.NoOverlapImpliesChecksPass | routers/setup.py:101-117 | conversely, playlists that start before they end and never overlap on a shared day pass the check |
| Schedule.DayHasNoRepeats | routers/setup.py:104-107 | without same-day overlaps, a day's sorted list holds each playlist at most once |
| Schedule.ChecksPassIffNoOverlap | routers/setup.py:101-136 | for playlists that start before they end, passing the per-day check is the same as having no same-day overlap |
| Setups.CheckPlaylist | routers/setup.py:126-136 | a playlist passes exactly when it has an image or a video and starts before it ends; it fails with the media reason first, then the time reason |
| Setups.FirstRefusal | routers/setup.py:125-136 | the checks over a request pass exactly when every playlist has media and starts before it ends |
| Setups.AddPlaylists | routers/setup.py:125-164 | the insert loop succeeds exactly when every playlist passes its checks, fails only with a media or time reason, and touches neither devices nor setups |
| Setups.FirstRefusalIsFirst | routers/setup.py:125-136 | a refusal names the first playlist that fails, every earlier one having passed |
| Setups.AddPlaylistsFirstFailure | routers/setup.py:125-136 | a refused insert loop reports that first failing playlist's reason |
| Setups.AddPlaylistsAdds | routers/setup.py:138-164 | the playlists are stored in request order under consecutive new ids; the image table gains exactly the requested images, playlist by playlist in request order and each under its playlist's new id, at consecutive new ids, and likewise the video table; every earlier row is unchanged |
| Setups.LinkDevices | routers/setup.py:166-175 | linking succeeds exactly when every listed id is a device; the refusal names a listed id that is not; on success exactly the listed devices point at the setup |
| Setups.CommitSetup | routers/setup.py:119-177 | the inserts succeed exactly when every playlist passes and every listed device exists; the new setup takes the table's next id (a lower bound on MySQL's id, see Left out) |
| Setups.CreateSetupWrites | routers/setup.py:74-177 | on success the setup row is new and holds the name, and exactly the listed devices are relinked to it |
| Setups.CreateSetupRefusesNames | routers/setup.py:75-89 | a taken setup name is refused with 409 before anything else; then repeated playlist names with 400 |
| Setups.CreateSetupAcceptance | routers/setup.py:74-177 | the create succeeds exactly when the name is free, names are unique, no day clashes, every playlist has media and starts before its end, and every device exists |
| Setups.CreateSetupNoOverlap | routers/setup.py:101-136 | after a successful create, every playlist has media and starts before it ends, and no two overlap on a shared day |
| Setups.CreateSetupMissingDevice | routers/setup.py:167-173 | a 404 names a listed device id that does not exist; being an error, it leaves no row behind |
| Setups.CreateSetup | routers/setup.py:177-182 | as written: the create's writes, then one update_setup per listed device, every one on the channel of the last listed device |
| Setups.CreateSetupSkipsEarlierDevices | routers/setup.py:180-182 | a listed device other than the last receives no instruction from the create as written |
| Setups.CreateSetupNotifyingEach | routers/setup.py:180-182 | the corrected create: the same writes and refusals, one instruction on each listed device's own channel |
| Setups.NotifyingEachReachesListedDevices | routers/setup.py:180-182 | under the corrected create a device is sent an instruction exactly when it is listed |
| Setups.EachListedDeviceNotified | routers/setup.py:219-221 | a list of notices reaches a device exactly when the device is in the list |
| Setups.CreateSetupKeepsValid | routers/setup.py:119-177 | a successful create keeps every bound, unique name and foreign key |
| SetupEdits.DeleteSetup | routers/setup.py:211-225 | 404 exactly for an unknown setup; otherwise the setup row is gone and one update_setup goes to each device linked to it |
| SetupEdits.DeleteSetupCascades | models/setup.py:19-21 | a deleted setup takes exactly its own playlists and exactly their media along; every remaining row is unchanged |
| SetupEdits.DeleteSetupUnlinks | models/setup.py:18 | afterwards no device points at the setup; other links and all device fields are kept |
| SetupEdits.DeleteSetupNotifiesLinked | routers/setup.py:219-221 | the instructions reach each device linked before the delete exactly once, and no other device |
| SetupEdits.DeleteSetupFreesName | routers/setup.py:222-223 | the deleted setup's name is free again |
| SetupEdits.DeleteSetupKeepsValid | routers/setup.py:211-225 | a delete keeps the state valid |
| SetupEdits.UpdateSetupAsWritten | routers/setup.py:237-273 | as written, an update never succeeds: 404 for an unknown setup, otherwise a 500 (the missing `data.playlists` attribute, or a clashing rename flushed first) |
| SetupEdits.UpdateAsWrittenRefusesEmptyUpdate | routers/setup.py:273 | the empty update of an existing setup whose stored playlists pass the day check is a 500 as written, and the corrected handler accepts it |
| SetupEdits.UpdateRefusal | routers/setup.py:242-301 | the refusals before the writes: 404 exactly for an unknown setup, otherwise only the 500 of a clashing rename; a rename clash gets through only when there are no deletes and the first new playlist fails its own checks |
| SetupEdits.CommitUpdate | routers/setup.py:249-381 | the writes succeed exactly when every new playlist has media and starts before its end |
| SetupEdits.UpdateSetup | routers/setup.py:237-387 | the corrected update: on success, its writes are the commit, the setup's playlists after the writes pass the per-day check, and one update_setup goes to every device linked to the setup after the commit |
| SetupEdits.UpdateSetupNotFound | routers/setup.py:242-247 | the update answers 404 exactly for an unknown setup |
| SetupEdits.UpdateSetupAcceptance | routers/setup.py:242-301 | the update succeeds exactly when the setup exists, a rename does not clash, each new playlist has media and starts before its end, and the setup's playlists after the writes pass the per-day check |
| SetupEdits.UpdateSetupRefusesClash | routers/setup.py:249-250 | renaming to another setup's name is always refused, with a 500 unless a 400 check comes first |
| SetupEdits.CommitUpdateRenames | routers/setup.py:249-250 | a given non-empty name replaces the setup's; no other setup row changes |
| SetupEdits.CommitUpdatePlaylists | routers/setup.py:252-317 | a playlist is deleted exactly when listed and owned by this setup; survivors are unchanged; new playlists take the next ids in request order (ids as a lower bound, see Left out) |
| SetupEdits.UpdatePlaylistEdits | routers/setup.py:332-365 | an entry for a playlist of this setup deletes exactly its listed media and appends the new ones; an entry for any other playlist changes nothing |
| SetupEdits.UpdatePlaylistsKeepForeignMedia | routers/setup.py:332-365 | media of other setups' playlists survive every media edit unchanged |
| SetupEdits.CommitUpdateKeepsOtherSetups | routers/setup.py:252-365 | other setups' playlists, images and videos are left exactly as they were |
| SetupEdits.CommitUpdateRelinks | routers/setup.py:367-381 | after the commit a device is linked exactly when it exists, was linked or is listed to add, and is not listed to remove; unknown ids are skipped |
| SetupEdits.CommitUpdateTakesFromOthers | routers/setup.py:367-372 | every other setup loses exactly the devices moved to this one |
| SetupEdits.CommitUpdateKeepsDeviceFields | routers/setup.py:367-381 | no device is added or deleted, and only the setup link of a device changes |
| SetupEdits.UpdateSetupNotifies | routers/setup.py:384-387 | a device is told exactly when it is linked after the commit, so a device removed by the update is not told |
| SetupEdits.UpdateSetupNoOverlap | routers/setup.py:260-286 | after a successful corrected update, no two of the setup's stored playlists overlap on a shared day: new with new, new with kept, or kept with kept |
| SetupEdits.UpdateSetupRefusesOverlap | routers/setup.py:260-286 | writes that would leave two same-day playlists of the setup overlapping are refused, with the overlap 400 or an earlier rename-clash 500 |
| SetupEdits.KeyAt | models/setup.py:19-21 | every position of the setup's id-ordered playlist list holds a stored playlist of that setup, and i of the setup's playlists precede the one at position i |
| SetupEdits.ScheduleNoOverlapIffStored | models/setup.py:19-21 | the setup's playlist list has no same-day overlap exactly when no two different stored playlists of the setup overlap on a shared day |
| SetupEdits.StoredCheckIffNoOverlap | routers/setup.py:260-286 | in a valid database, the day check over a setup's stored playlists passes exactly when no two of them overlap on a shared day |
| SetupEdits.UpdateSetupKeepsValid | routers/setup.py:237-387 | a successful corrected update keeps the state valid |
| SetupEdits.DropPlaylistsKeepsDbOk | routers/setup.py:253-258 | deleting playlists with their media keeps every foreign key intact |
| Devices.FreshKey | routers/device.py:63-67 | the key loop returns the first drawn key that no device holds |
| Devices.CreateDevice | routers/device.py:43-82 | 404 when nobody listens on the code's channel, checked first; then 409 for a taken name; accepted exactly otherwise |
| Devices.CreateDeviceAcceptance | routers/device.py:63-80 | an activation adds exactly one device under a fresh id, with the given name and location and a key no device held; it makes exactly one publish, of the name and key, on the code's channel; nothing else changes |
| Devices.CreateDeviceIgnoresSetup | routers/device.py:69-74 | the request's setup id is not stored: a new device is linked to no setup |
| Devices.CreateDeviceKeepsValid | routers/device.py:56-76 | names and api keys stay unique and all bounds hold after an activation |
| Devices.UpdateDeviceInfo | routers/device.py:163-189 | 404 for an unknown device, then 409 when a requested name is held by any device; an accepted update publishes nothing |
| Devices.UpdateDeviceInfoAcceptance | routers/device.py:166-189 | accepted exactly when the device exists, a requested name is free, no NOT NULL column is nulled and a requested setup exists; then only the present fields of that one device change |
| Devices.UpdateDeviceRefusesOwnName | routers/device.py:174-182 | asking for the device's current name is refused with 409 |
| Devices.UpdateDeviceRenameNotRepeatable | routers/device.py:174-182 | repeating an accepted rename is refused, the name now being taken |
| Devices.UpdateDeviceEmptyIsNoOp | routers/device.py:173-187 | an empty body is accepted and changes nothing |
| Devices.UpdateDeviceInfoKeepsValid | routers/device.py:173-187 | an accepted update with valid fields keeps names unique and all bounds |
| Devices.DeleteDevice | routers/device.py:133-143 | 404 exactly for an unknown device; otherwise exactly that row is removed and nothing else changes |
| Devices.DeleteDeviceKeepsValid | routers/device.py:141-142 | a device delete keeps the state valid |
| Devices.DeletedIdNotReused | models/device.py:14 | the next activation after a delete gets a different id |
| Devices.DeleteDeviceLeavesPresence | routers/device.py:141-143 | a deleted device that was online stays in `online_devices` |
| Devices.SendSnapshot | routers/device.py:351-371 | 404 for an unknown device, 409 when its instruction channel has no subscriber, otherwise exactly one snapshot instruction with the url on that channel |
| Devices.OpenInstructionStream | routers/device.py:206-217 | opening sets last-seen, publishes an online status, adds the id to `online_devices` and takes one subscription to the instruction channel |
| Devices.CloseInstructionStream | routers/device.py:226-255 | closing removes the id from `online_devices`, publishes an offline status, releases one subscription and sets last-seen if the row still exists |
| Devices.OpenInstructionStreamKeepsValid | routers/device.py:206-208 | opening keeps the state valid |
| Devices.CloseInstructionStreamKeepsValid | routers/device.py:253-255 | closing keeps the state valid |
| Devices.SessionRoundTrip | routers/device.py:210-230 | open then close restores every subscriber count, leaves the device offline, and logs one online then one offline status |
| Devices.OpenTwiceSameOnline | routers/device.py:212 | a second open leaves `online_devices` as the first left it |
| Devices.SecondSessionLosesPresence | routers/device.py:212-230 | when one of two sessions closes, the device is listed offline although it still listens and snapshots still reach it |
| Devices.SnapshotReachesOpenStream | routers/device.py:361-369 | a snapshot request is accepted while the device's stream is open |
| Devices.SnapshotRefusedAfterClose | routers/device.py:361-365 | after the only session closes, a snapshot request gets 409 |
| Devices.StatusStream | routers/device.py:270-303 | the status stream takes a subscription to `devices:status` and sends the current `online_devices` before anything queued |
| Devices.StatusShowsPresence | routers/device.py:297-299 | the first status frame lists a device while its stream is open, and not after it closes |
| Activation.NextCode | routers/code.py:26-39 | the counter is stored and equals the code handed out, which is always below 999_999_999 |
| Activation.NextCodeKeepsCounterOk | routers/code.py:28-39 | from an in-range counter, the new counter and the code lie in [100_000_001, 999_999_998], inside the DeviceCodeOutput bounds |
| Activation.FirstCodeFollowsSeed | routers/code.py:28-31 | with no counter stored, the code is the seed plus one |
| Activation.NextCodeIncrements | routers/code.py:31-37 | without a wrap the code is the previous counter plus one; on a wrap it is the new seed plus one |
| Activation.IssueCounts | routers/code.py:31 | consecutive requests that never reach the wrap receive consecutive codes |
| Activation.IssueDistinctWithoutWrap | routers/code.py:31 | such requests receive strictly increasing, so distinct, codes |
| Activation.CodeRepeatsAfterWrap | routers/code.py:33-37 | across a wrap a code can be handed out a second time |
| Activation.OpenCodeStream | routers/code.py:70-81 | refused with 400 exactly when the code's channel has a subscriber; otherwise the stream is its only subscriber and nothing else changes |
| Activation.SecondCodeStreamRefused | routers/code.py:70-76 | a second stream on a code is refused while the first listens |
| Activation.ActivationReachesWaitingClient | routers/device.py:48-80 | once a client waits on a code, activating with that code is not refused as unawaited, and the credentials are published on the channel the client listens on |
| Activation.ContainsWord | routers/code.py:127 | the scan finds the word exactly when it occurs in the item |
| Activation.StreamAsWritten | routers/code.py:119-128 | as written, the frames are a prefix of the queue; TIMEOUT is never sent; every frame but the last contains "heartbeat" |
| Activation.EmitFrames | routers/code.py:119-128 | the item-by-item loop sends exactly the frames StreamAsWritten describes |
| Activation.StreamIntended | routers/code.py:119-128 | as intended, the frames are a prefix of the queue; TIMEOUT is never sent; every frame but the last is a heartbeat frame |
| Activation.IntendedStopsAtMessage | routers/code.py:88-91 | the intended stream sends the heartbeats before the first message frame, then that frame, then stops |
| Activation.StreamsAgree | routers/code.py:125-128 | both loops send the same frames when no frame other than a heartbeat contains the word |
| Activation.StreamAsWrittenMissesCredentials | routers/code.py:127-128 | for a device named "heartbeat" the stream as written goes on past the credentials frame; the intended stream ends there |
| Activation.ReleaseIdempotent | routers/code.py:91-93 | a second UNSUBSCRIBE on a connection that already released the channel changes nothing |
| Activation.CodeSessionReleasesOnce | routers/code.py:85-136 | the `finally` reads the flag before the cancelled listener runs, so it always releases the subscription; the listener's later release, when it was still waiting, changes nothing; every subscriber count is restored and the code can be waited on again |

## Left out

- Authentication is not modelled: the device's api-key header with its 401, and the administrator's JWT cookie. A device handler takes a device id. The instruction stream requires that id to be stored.
- Devices.FreshKey: requires that one of the given key draws is fresh. The source draws random keys until one is; the random generator is not modelled.
- Devices.CreateDevice: the taken-name test (routers/device.py:56-61) and the unique key on the name compare exactly. Under MySQL's default case- and accent-insensitive collation, activating "lobby" while "LOBBY" exists is a 409, and the model accepts it.
- Devices.UpdateDeviceInfo: the same for a rename. The model accepts renaming to "LOBBY" when only "lobby" exists, while MySQL answers 409.
- Setups.CreateSetupWrites: setup names are unique in the model as exact strings. MySQL's test and unique key treat "Lobby" and "lobby" as one name, so the model accepts a create that the source refuses with 409.
- Devices.CreateDevice: also requires the devices table's ids to lie below its next id, which holds for every auto-increment table.
- Clocks and randomness are parameters: last-seen times are given as `now`; the counter's seeds are given within the `randint` range.
- The timers and task concurrency of the streams are not modelled: the 10-second heartbeat, the 630-second timeout, and cancellation races between a listener and a `finally` block. Streams are modelled by their state effects and by a given queue of items. Activation.CodeSessionReleasesOnce fixes one schedule: the `finally` runs up to its UNSUBSCRIBE before the cancelled listener's handler runs. Any other interleaving of the two UNSUBSCRIBE calls also releases once, because the second call is ignored, but the model does not enumerate those interleavings.
- The frames of the device instruction stream and of the status stream after the first are not modelled; only the presence effects and the first status frame are.
- Devices.CloseInstructionStream: when the device row was deleted while its stream was open, the model leaves the database unchanged. The source's final commit of the detached row is not modelled.
- Activation.CredentialsJson renders names and keys that need no JSON escaping.
- SetupEdits.UpdateSetup: does not check that the setup's playlist names are unique after the writes. The handler's own note at routers/setup.py:383 asks for that check, but nothing in the source states its status code or message.
- Setups.CommitSetup: a create refused after a flush leaves every table's `next` unchanged in the model. This also affects Setups.AddPlaylistsAdds and SetupEdits.CommitUpdatePlaylists. In the source the new setup is flushed at routers/setup.py:122 and each new playlist at :152, before the 400 for a later playlist without media or with start not before end, and before the 404 for a missing device. InnoDB does not give back the AUTO_INCREMENT values those rolled-back inserts consumed. So after a playlist without media is refused, the next create receives id N+1 in MySQL, while the model assigns N. The corrected update has the same gap: its new playlists are flushed at :317, before the stored-schedule 400. The model's ids are therefore a lower bound on the ids MySQL assigns. What the model proves about which rows are stored, in what order and how they link carries over to MySQL's larger ids; the absolute id values do not.
- SetupEdits.SetupSchedule: lists the setup's playlists in id order. The relationship declares no order; the day check's verdict does not depend on it, because only the refusal message names a pair. Store.Linked, used by SetupEdits.DeleteSetup and SetupEdits.UpdateSetup, likewise lists a setup's devices in ascending id order. `Setup.devices` (models/setup.py:18) declares no `order_by`, so the source sends the `update_setup` notices in an unspecified order. The proved notice contracts quantify over membership and do not depend on the order.
- SetupEdits.UpdateSetupAsWritten: the moment a clashing rename reaches the database is approximated by the session's first flush.
- The exact wording of 422 validation errors is not modelled, except for the three messages a time field can produce.
- Schemas.ValidateTime: follows `time.fromisoformat` as of Python 3.10, which accepts a five-character string only in the form HH:MM. From Python 3.11 that function also accepts other five-character forms such as `T1230`, `1230Z` and `12+01`. Under 3.11 such a value passes validation, and the later `strptime("%H:%M")` raises, answering 500; the model does not cover that.
- The read-only handlers are not modelled: `get_device_info`, `get_all_devices_info`, `/devices/me` and setup reads.
- Other parts of the repository are not part of this model: the S3 upload-url handler, the administrator login router, and application wiring and bootstrap (main.py, `__init__.py`, the Redis pool).

## Findings

| source | as written | input that shows it | evidently intended | confidence | as-written member | corrected member |
|---|---|---|---|---|---|---|
| routers/setup.py:180-182 | the notification loop iterates `device_id` but publishes to `device.id`, the last device the link loop looked up | a create listing two existing devices [1, 2]: both instructions go to device 2 and device 1 is never told | one `update_setup` on each listed device's own channel | high, not executed | Setups.CreateSetup (shown by Setups.CreateSetupSkipsEarlierDevices) | Setups.CreateSetupNotifyingEach (proved by Setups.NotifyingEachReachesListedDevices) |
| routers/setup.py:260-273 | the overlap check reads `data.playlists`, which `SetupUpdate` (models/setup.py:46-52) does not declare, so every update of an existing setup ends in a 500 | the empty update `{}` of an existing setup | as the note at line 260 asks, the check runs at the end, over every playlist the setup holds after the deletes and inserts (`setup.data`), and an overlap rolls the update back with a 400 | high, not executed | SetupEdits.UpdateSetupAsWritten (shown by SetupEdits.UpdateAsWrittenRefusesEmptyUpdate) | SetupEdits.UpdateSetup (proved by SetupEdits.UpdateSetupNoOverlap, SetupEdits.UpdateSetupRefusesOverlap and SetupEdits.UpdateSetupAcceptance) |
| routers/code.py:127-128 | the stream ends after an item that lacks the substring "heartbeat", so a message frame whose payload contains that word does not end it | a device activated with the name "heartbeat": its credentials frame contains the word, and the waiting client's stream stays open on heartbeats until the timeout | end the stream after the first frame that is not a heartbeat frame | medium, not executed | Activation.StreamAsWritten (shown by Activation.StreamAsWrittenMissesCredentials) | Activation.StreamIntended (proved by Activation.IntendedStopsAtMessage) |
