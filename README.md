# TIME-PON room engine in Dafny

TIME-PON is a shared presentation countdown. An operator console and a stage display talk to one
PHP endpoint (`index.php`). The server keeps one JSON document per room, identified by a 6-digit
id: the run state (idle, running or paused), the duration, two warning thresholds in minutes, the
run timestamps, a message for the speaker, what the stage last reported, and the room's admin key.
Both browsers poll the room and compute the countdown themselves, correcting their clock by the
server time sent with each reply.

This project models that engine and proves its properties:

- `Rooms`: the document schema, `load_state` (defaults merged under the stored fields, the legacy
  `warnSec` key renamed to `warn1Min`), what `save_state` writes, and `redact_state`.
- `Ids`: id sanitisation, `id_to_file`, and the `gen_unique_id` retry loop with its clock fallback.
- `Timer`: the changes `set` (start, resume, pause, reset, message, unknown), `setSettings`,
  `ackStart` and `hb` make to a loaded room, as functions, with the state machine's guarantees
  about the remaining time.
- `Auth`: the admin-key gate with the optional claim of a keyless room.
- `Throttle`: the three fixed-window rate limiters, as pure steps and as a class over the counter
  files.
- `Clock`: the client arithmetic, namely `remainFromState`, exact `Math.ceil` on milliseconds, the
  colour tiers, `fmt`, `updateDrift` and the online test.
- `Client`: the operator console (auto-prompt latch, start and reset buttons) and the stage
  display (render loop with its start acknowledgement), as classes.
- `Handlers`: the `create`, `get`, `set`, `setSettings`, `ackStart` and `hb` actions as methods
  of a `Server` class. The server holds the room documents (a map from file name to document) and
  the rate limiter.

The handlers update their local copy of the room field by field, as the PHP does. Each method's
postcondition ties the saved document to the `Timer` functions, and the lemmas are proved about
those functions.

Behaviours of the code a reader might not expect:

- A `message` command replaces only the text. There is no message timestamp or message
  acknowledgement in this code.
- `start` with a `durationSec` clamps the duration only into [5, 86400] seconds, so it can leave
  the warning minutes above the duration (`Timer.StartMayOutrunWarnings`). Only `setSettings`
  keeps the warnings within the duration.
- `ackStart` and `hb` require no admin key; only `set` and `setSettings` pass the key gate.
- `get` of an id with no file returns the default room; the reply does not say the room is new.
- The stage always sends `fs=0` in its heartbeat (`index.php:1080`), so the stored fullscreen flag
  is always false for the shipped client.
- The `hb` reply carries the room before the save stamps `updatedAt`.
- If all 50 random draws collide, `gen_unique_id` falls back to a clock-derived id that is not
  checked against existing rooms. `create` then loads that room and overwrites its settings and
  its admin key (`Handlers.Server.Create`).

## Model

| member | source | states |
|---|---|---|
| `Ids.StripNonDigits` | index.php:240 | the id keeps exactly the digits of the request: each digit as often as in the request, no other character; empty exactly when the request has no digit; an all-digit id is unchanged |
| `Ids.StripKeepsOrder` | index.php:240 | stripping distributes over concatenation, so the digits keep their order |
| `Ids.RequireId` | index.php:240-241 | `id required` exactly when the raw id holds no digit; otherwise the id is the request's digits (`StripNonDigits`), non-empty |
| `Ids.FileKey` | index.php:71-74 | the file name part is always a non-empty digit string: `000000` for an id without digits, otherwise the id's digits, and the id itself when it is all digits |
| `Ids.FileName` | index.php:71-75 | the document file name is the key plus `.json` and contains no `/` |
| `Ids.IdToFile` | index.php:71-75 | the path is the data directory, `/`, and that file name: one file directly inside the directory |
| `Ids.GenId` | index.php:76-79 | a draw below 10^6 becomes 6 digits whose decimal value is the draw |
| `Ids.FallbackId` | index.php:86 | the fallback id is always 6 digits, with value `time() mod 10^6` |
| `Ids.GenUniqueId` | index.php:80-87 | returns 6 digits; if some draw is free, the first free draw (all earlier ones taken); else the fallback |
| `Rooms.DefaultRoom` | index.php:93-106 | a missing room is idle, 2400 s, warnings 10 and 5 minutes, run fields 0, empty message and stage, no key |
| `Rooms.TruncDiv` | index.php:112 | `intval($a/60)` truncates toward zero: for a >= 0, 0 <= a - bq < b; for a < 0, 0 <= bq - a < b, with q of the sign of a |
| `Rooms.Migrate` | index.php:112-113 | `warn1Min` is present after migration iff it or `warnSec` was; a present `warn1Min` is kept; a migrated one is non-negative |
| `Rooms.Merge` | index.php:114-127 | `array_merge` of defaults and document: a document without fields gives the defaults; a stored key wins, an absent one keeps the default (`LoadState` states every field) |
| `Rooms.LoadState` | index.php:91-128 | no file gives the default room; otherwise every field is the stored value or, when absent, its default (id, state, duration, both warnings with the legacy rename, run timestamps, message, stage, `updatedAt`), and the key as stored |
| `Rooms.Save` | index.php:129-136 | `save_state` writes every field, the key as it is, `updatedAt` stamped with the save time; `LoadSaved` reads it back (a leftover `warnSec` is not carried, see below) |
| `Rooms.LoadSaved` | index.php:91-136 | loading what `save_state` wrote gives back the saved room, with `updatedAt` as stamped |
| `Rooms.CorruptReadsAsMissing` | index.php:108-110 | an undecodable file loads as the default room, like a missing one |
| `Rooms.LegacyWarnMigrated` | index.php:112 | an old document with only `warnSec` gets `max(0, intval(warnSec/60))` minutes |
| `Rooms.CurrentWarnWins` | index.php:112-127 | a stored `warn1Min` always wins over `warnSec` |
| `Rooms.Redact` | index.php:88 | `redact_state` drops the admin key: `RedactHidesKey` and `RedactLosesOnlyKey` show it drops that and nothing else |
| `Rooms.RedactHidesKey` | index.php:88 | the redacted view is the same whatever the admin key is |
| `Rooms.RedactLosesOnlyKey` | index.php:88 | the room is recovered from its redacted view plus its key: nothing else is dropped |
| `Clock.CeilDivBounds` | index.php:940-943 | `Math.ceil(x/d)` on integers: the q with d(q-1) < x <= dq, for negative x too |
| `Clock.CeilDivUnique` | index.php:940-943 | that ceiling is the only integer with this property |
| `Clock.CeilDivMonotone` | index.php:940-943 | a larger numerator never gives a smaller ceiling |
| `Clock.CeilDiv` | index.php:940-943 | `Math.ceil` of an integer quotient in Euclidean arithmetic; its meaning is `CeilDivBounds` and `CeilDivUnique` |
| `Clock.ElapsedMs` | index.php:937-947 | the milliseconds used: `UsedTimeBetweenCommands` shows it grows with the clock while running and stands still while paused |
| `Clock.Remaining` | index.php:937-947 | idle shows the duration; otherwise the whole seconds, rounded up, of duration minus used time |
| `Clock.RemainingMonotone` | index.php:937-947 | more used time never shows more remaining time |
| `Clock.RemainingWithNothingUsed` | index.php:937-947 | with nothing used, exactly the duration remains |
| `Clock.TierFor` | index.php:971-982 | overtime iff remain <= 0; second warning iff 0 < remain <= w2; first iff w2 < remain <= w1; normal otherwise |
| `Clock.TierEscalates` | index.php:971-982 | as the countdown falls, the tier only escalates |
| `Clock.ConsoleTier` | index.php:999-1001 | the console colour is `TierFor` with the room's warning minutes as seconds; `StageTier` agrees with it |
| `Clock.StageTier` | index.php:1091-1109 | the stage colour with zero warnings shows only normal or overtime, and agrees with the console's colour |
| `Clock.StageAsWrittenIgnoresDisabledWarnings` | index.php:1133 | with both warnings 0, the console shows normal at 100 s but the stage as written shows second warning (first at 400 s) |
| `Clock.StageTierAsWritten` | index.php:1133 | the stage colour with `warn1Min\|\|10` and `warn2Min\|\|5`; compared with `StageTier` in `StageAsWrittenIgnoresDisabledWarnings` |
| `Clock.MinSec` | index.php:594 | the unsigned display is at least `mm:ss`, starting with a digit |
| `Clock.Fmt` | index.php:594 | the display has a colon before two seconds digits, and starts with `-` exactly in overtime |
| `Clock.FmtRoundTrip` | index.php:594 | reading the display back gives the seconds, overtime included |
| `Clock.UpdateDrift` | index.php:809-812 | a positive server time makes local time plus drift equal server time; otherwise the drift is kept |
| `Clock.ServerNow` | index.php:938 | `Date.now() + CLOCK_DRIFT_MS` (also at 1006 and 1112); `DriftCorrectedClientsAgree` shows it reads the server clock once the drift is taken |
| `Clock.StageOnline` | index.php:1005-1007 | the console's online test; `HeartbeatOnlineWindow` gives its window after a heartbeat |
| `Clock.HeartbeatOnlineWindow` | index.php:1005-1007 | a heartbeat keeps the stage online for at least 5 s, and it is offline from 6 s on |
| `Clock.DriftCorrectedClientsAgree` | index.php:937-938 | two clients whose drifts came from the same server reply, whatever their earlier drifts and local clocks, read the server clock and the same remaining time then and at every later moment |
| `Timer.ParseCommand` | index.php:264-307 | each of the four names selects its command, any other name is the no-op, and the fields it reads are passed through |
| `Timer.StartCmd` | index.php:267-286 | `start` from idle, from paused and while running; its guarantees are `StartFromIdle`, `ResumeAccumulates` and `StartWhileRunning` |
| `Timer.PauseCmd` | index.php:287-292 | `pause`; its guarantee is `PauseOnlyFromRunning` |
| `Timer.ResetCmd` | index.php:293-295 | `reset`; its guarantee is `ResetKeepsSettings` |
| `Timer.MessageCmd` | index.php:296-304 | `message` replaces the text by its sanitised form (`SanitizeMessage`) and nothing else |
| `Timer.Apply` | index.php:264-307 | the whole `switch`: `ApplyKeepsWellFormed`, `PausedTotalNeverDecreases` and `CommandKeepsUsedTime` hold of it |
| `Timer.SanitizeMessage` | index.php:296-304 | the message is the text without the control characters other than TAB, LF and CR, cut to its first min(kept length, 500) characters; clean short text is kept |
| `Timer.SanitizeIdempotent` | index.php:296-304 | sanitising a sanitised message changes nothing |
| `Timer.ApplySettings` | index.php:330-335 | duration in whole minutes in [1, 720]; each warning in [0, duration minutes]; absent inputs fall back to the rounded-up stored duration and stored warnings; nothing else changes |
| `Timer.SettingsKeepConsistentRoom` | index.php:330-335 | an empty settings request leaves consistent settings unchanged |
| `Timer.SettingsIdempotent` | index.php:330-335 | re-sending the same settings changes nothing more |
| `Timer.AckStart` | index.php:345 | records the stage's acknowledgement time; `SideChannelsKeepRun` shows it leaves the run alone |
| `Timer.Heartbeat` | index.php:356-357 | records last-seen seconds and the fullscreen flag; `SideChannelsKeepRun` shows it leaves the run alone |
| `Timer.ParseFullscreen` | index.php:355 | on exactly when `fs` is present and is `1` or four characters that lower-case to `true` (so `1`, `true`, `TRUE` on; absent, empty, `0` off) |
| `Timer.DefaultWellFormed` | index.php:93-106 | the default room's run fields agree with its idle state |
| `Timer.ApplyKeepsWellFormed` | index.php:266-307 | every command at a positive time keeps the run fields consistent with the state |
| `Timer.SideChannelsKeepRun` | index.php:330-357 | settings, start acknowledgements and heartbeats leave the run state and timestamps alone |
| `Timer.StartFromIdle` | index.php:267-276 | start from idle runs from now with run fields and acknowledgement cleared, the duration clamped to [5, 86400] when given, and nothing else changed |
| `Timer.StartWhileRunning` | index.php:284-286 | start while running changes nothing |
| `Timer.PauseOnlyFromRunning` | index.php:287-292 | pause records the time and pauses a running room; otherwise nothing changes |
| `Timer.ResumeAccumulates` | index.php:277-283 | resume adds max(0, now - pausedAt) to the paused total (nothing without a pause time), runs again from the same start, and changes nothing else |
| `Timer.ResetKeepsSettings` | index.php:293-295 | reset gives idle with run fields and acknowledgement cleared, keeping settings, message, key and heartbeat |
| `Timer.PausedTotalNeverDecreases` | index.php:266-307 | only reset lowers the paused total |
| `Timer.RemainingAtStart` | index.php:937-947 | idle shows the duration, and right after a start the whole new duration remains |
| `Timer.PausedRemainingFrozen` | index.php:941-943 | while paused, used and remaining time do not depend on the clock |
| `Timer.PauseResumeConserves` | index.php:277-292 | remaining just before a pause, during it and just after the resume are equal |
| `Timer.UsedTimeBetweenCommands` | index.php:937-947 | between commands, used time grows with the clock while running and stands still while paused |
| `Timer.CommandKeepsUsedTime` | index.php:266-307 | a command other than reset does not change the used time at the moment it is applied |
| `Timer.ReplayUsedTime` | index.php:266-307 | over any ordered series of non-reset commands, used time grows by at least 0 and at most the elapsed wall time |
| `Timer.ReplayNeverAddsTime` | index.php:937-947 | so the remaining time never goes up during a run |
| `Timer.OneSecondIntoFiveMinutes` | index.php:937-940 | a 300 s start read one second later shows 299 |
| `Timer.StartMayOutrunWarnings` | index.php:267-272 | a start can set a duration (5 s) shorter than the stored first warning |
| `Auth.Gate` | index.php:253-262 | a keyed room admits exactly its key; a keyless room is forbidden without claim, and with claim admits exactly the claimable keys and stores them |
| `Auth.NoKey` | index.php:253 | PHP `empty()` on the stored key: missing, empty or `"0"` counts as no key; `Gate` claims only such rooms and `KeyedRoomIgnoresClaim` covers the rest |
| `Auth.ClaimPatternAsWritten` | index.php:255 | `/^[0-9a-f]{32,}$/i` without `D`: 32 or more hex digits, optionally followed by one final newline; `ClaimAcceptsTrailingNewline` and `GatesAgreeWithoutTrailingNewline` compare it with the intended pattern |
| `Auth.Authorize` | index.php:253-262 | a granted request always ends with a non-empty key equal to the presented one; a claimed key is 32 or more hex digits |
| `Auth.AuthorizeAsWritten` | index.php:253-262 | the gate as written: a keyed room admits exactly its key; a keyless one is forbidden without claim and with claim admits what `/^[0-9a-f]{32,}$/i` matches |
| `Auth.ClaimAcceptsTrailingNewline` | index.php:255 | the gate as written claims a keyless room with 32 hex digits plus a newline; the intended gate refuses it |
| `Auth.GatesAgreeWithoutTrailingNewline` | index.php:255 | for any key not ending in a newline the two gates agree |
| `Auth.KeyedRoomIgnoresClaim` | index.php:253-262 | once a room has a key, the claim switch makes no difference: its key is admitted, any other refused |
| `Auth.ClaimedKeyKeepsWorking` | index.php:253-262 | a valid claim is admitted, and the stored key keeps working with claims switched off |
| `Throttle.SanitizeAddress` | index.php:148 | same length in characters; characters of `[0-9a-fA-F:.]` kept in place, every other one replaced by `_` (PHP replaces per byte, see below) |
| `Throttle.ClientAddress` | index.php:147-148 | the counter name taken from the client address never contains `/` |
| `Throttle.UnknownClientsShareOneCounter` | index.php:147-148 | all clients without an address share one counter |
| `Throttle.CounterFilesDistinct` | index.php:146-212 | counter files of different categories or different sanitised addresses never coincide |
| `Throttle.Category.FileKey` | index.php:151-204 | the counter file of each throttle: the sanitised address for `create`, with `r_` for reads and heartbeats, with `w_` for writes; `CounterFilesDistinct` shows no two coincide |
| `Throttle.Category.Limit` | index.php:152-205 | the limits 10, 300 and 120 per 60 s window; the burst lemmas show exactly that many requests pass in a window |
| `Throttle.Fresh` | index.php:154 | a counter older than 60 s restarts at `{now, 0}`; otherwise it is kept |
| `Throttle.CreateStep` | index.php:146-159 | `create` passes iff the fresh count is below 10; a pass counts one more; a rejection writes nothing |
| `Throttle.CountedStep` | index.php:160-173 | reads and writes always count one more and store it, and pass iff the new count is within the limit |
| `Throttle.QuietWindowAdmits` | index.php:154-156 | after a quiet minute, every category admits the next request with count 1 |
| `Throttle.CreateBurstWithinWindow` | index.php:146-159 | within a window the i-th `create` passes iff cnt + i < 10, and the counter stops at 10 |
| `Throttle.CountedBurstWithinWindow` | index.php:160-173 | within a window the i-th read or write passes iff cnt + i + 1 <= limit, and every request is counted |
| `Throttle.RateLimiter.ThrottleCreate` | index.php:146-159 | the client's create counter file moves by one create step; a rejection leaves every file as it was |
| `Throttle.RateLimiter.ThrottleCounted` | index.php:160-173 | the client's counter file of that category moves by one counted step; no other file changes |
| `Throttle.RateLimiter.ThrottleGetHb` | index.php:160-173 | the `r_` counter counts one step against 300 |
| `Throttle.RateLimiter.ThrottleWrite` | index.php:199-212 | the `w_` counter counts one step against 120 |
| `Client.AutoStep` | index.php:949-969 | without a room nothing happens; each unsent threshold is prompted, once, exactly when the countdown crosses it; nothing fires on the first frame; idle disarms |
| `Client.PromptsMatchLatch` | index.php:949-969 | while not idle, a threshold is prompted exactly when its sent flag turns on, and a sent flag stays on |
| `Client.AtMostOncePerRun` | index.php:949-969 | each threshold is prompted at most once per run, and never once sent |
| `Client.CrossingIsPrompted` | index.php:949-969 | a countdown seen above an enabled unsent threshold that later reaches it gets the prompt, whatever the frame steps |
| `Client.CrossingPromptedExactlyOnce` | index.php:949-969 | such a crossing is prompted exactly once |
| `Client.NoPromptOnFirstFrame` | index.php:953 | a freshly opened console never prompts on its first frame |
| `Client.AdminConsole.MaybeAutoPrompt` | index.php:949-969 | the latch fields and the sent messages follow `AutoStep`; drift and room are untouched |
| `Client.AdminConsole.Sync` | index.php:929-930 | a poll reply updates the drift and the room, and leaves the auto-prompt latch alone |
| `Client.AdminConsole.Pull` | index.php:923-1018 | after a poll the drift is updated, and the view shows the remaining time, its display, the tier, the online flag and the auto-prompts at drift-corrected time |
| `Client.AdminConsole.StartPressed` | index.php:1030-1038 | start disarms the latch and sends `max(1, minutes or 40) * 60` seconds only when no room is loaded or it is idle |
| `Client.AdminConsole.ResetLatch` | index.php:1041 | reset (and a saved setting) disarms the latch and changes nothing else |
| `Client.StageDisplay.Pull` | index.php:1074-1089 | a heartbeat reply updates the drift and the stage's room |
| `Client.StageDisplay.Render` | index.php:1123-1140 | the stage shows remaining time, display, message and colour, and sends `ackStart` exactly on the first frame that sees the room running |
| `Client.StageDisplay.Step` | index.php:1074-1141 | one heartbeat reply or frame sends `ackStart` and updates `lastRunning` and the held room as `AckOf`, `NextLastRunning` and `NextSeen` say |
| `Client.StageDisplay.Play` | index.php:1074-1141 | the stage loop's `ackStart` flags over a series of replies and frames are `Acks` of the series, the function the two lemmas above are about |
| `Client.AckOncePerStart` | index.php:1074-1141 | over any order of heartbeat replies and frames in which the room stays running, `ackStart` is sent at most once, and never if the last frame already showed it running |
| `Client.StartAcknowledgedOnce` | index.php:1074-1141 | if the room stays running and the stage draws it running, a stage not already showing it running sends `ackStart` exactly once |
| `Handlers.InitializeNewRoom` | index.php:220-236 | a created room without a previous file is the default room with its new key |
| `Handlers.InitializeResetsRun` | index.php:220-236 | a created room is idle and consistent whatever was loaded, and only its key opens it |
| `Handlers.Initialize` | index.php:225-234 | `create` writes the default room over the loaded one, keeping its id, last heartbeat and fullscreen flag, with the new key |
| `Handlers.Server.Admit` | index.php:253-262 | the gate's verdict is `Auth.Authorize`; a claim saves the claimed key before the comparison; a refusal saves nothing |
| `Handlers.Server.Create` | index.php:220-237 | throttled by the create counter; a created room has a 6-digit id and the fresh key, and is saved over the loaded room; with a free draw the id is new and the room is the default |
| `Handlers.Server.Get` | index.php:238-244 | throttled by the read counter; `id required` without digits; otherwise the redacted room and the server time, saving nothing |
| `Handlers.Server.RunCommand` | index.php:266-307 | the field-by-field `switch` equals `Timer.Apply` of the parsed command |
| `Handlers.Server.ClampSettings` | index.php:330-335 | the field-by-field clamp equals `Timer.ApplySettings` |
| `Handlers.Server.Commit` | index.php:307 | the changed room (command or settings, the latter saved at line 336) is stored under the id's file with `updatedAt` stamped, and no other file changes |
| `Handlers.Server.Guarded` | index.php:249-262 | a refused key saves nothing; an admitted one saves the room changed by the request, with the admitted key |
| `Handlers.Server.Set` | index.php:245-310 | rate limit, then id, then key gate, each error saving nothing; otherwise the command's new room is saved |
| `Handlers.Server.SetSettings` | index.php:311-338 | the same order of checks; otherwise the clamped settings are saved |
| `Handlers.Server.AckStart` | index.php:339-348 | rate limit and id only (no key); the stage's acknowledgement time is saved |
| `Handlers.Server.Hb` | index.php:349-360 | read-rate limit and id only; last-seen seconds and fullscreen flag are saved and the redacted room is returned |

## Left out

- File I/O is not modelled: `save_state`'s temporary file, locking, rename and chmod, the data
  directory and `.htaccess` creation, and the counter files' persistence. Storage is a map.
- The garbage collection of old rooms (`gc_old_rooms`) and its random trigger are not modelled.
  The collector works only by directory scan and file deletion.
- Randomness is a parameter: the 50 draws of `gen_id` and the 32-hex-digit admin key from
  `random_bytes` are inputs of `Handlers.Server.Create`.
- Clocks are parameters. `time()` and `microtime()` are one integer millisecond input (`nowMs`),
  and the browsers' `Date.now()` is an input too.
- Origin and header checks, HTTP method dispatch, `json_out`'s headers and exit, and the network
  polling loops (`fetch`, `setTimeout`, `requestAnimationFrame`) are out of scope.
- The 30-second clearing of an auto-prompt message is left out. It is a timer-driven `set`
  request.
- Presentation is out of scope: HTML/CSS, the i18n tables, QR codes, keyboard shortcuts, the
  clipboard, and the console's form fields other than the start button's minutes.
- Concurrency is not modelled: two requests' read-modify-write cycles can lose an update, and
  each handler here is one atomic step.
- `hash_equals`'s constant-time comparison is string equality, since timing is not expressible.
- PHP's `(int)` cast of POST strings is not modelled: numeric inputs are already integers.
- `Timer.ParseFullscreen` compares `fs` with `1` exactly. PHP's loose `==` at index.php:355 also
  accepts numeric strings equal to 1, such as `01`, `1.0` or ` 1`; those are not modelled.
- Message length is counted in code points. The 2000-byte fallback (used when `mb_*` is missing)
  and invalid UTF-8 (where `preg_replace` with `/u` returns null) are not modelled.
- The stored document is typed. Unknown extra keys are not modelled; in particular a legacy
  `warnSec` stays in the PHP array, and `Rooms.Encode` drops it. Explicit JSON nulls, a state
  string outside the three states, and non-integer numbers are not modelled either.
- `array_merge` replaces the `stage` sub-record as a whole, and so does the model, so a stored
  `stage` missing some keys is not modelled field by field.
- `fmt`'s `|0` truncation to 32 bits is not modelled. Minutes above 2^31 do not occur for
  durations up to 86400 s.
- `Client.StageDisplay.Render` uses the corrected stage colour (`Clock.StageTier`). The colour as
  written, `Clock.StageTierAsWritten`, is kept beside it and compared in the findings.
- `Throttle.SanitizeAddress` replaces per character, but the PHP pattern has no `/u`, so it
  replaces per byte: a non-ASCII character becomes one `_` per UTF-8 byte. The model's counter
  name is then shorter than PHP's. A server address (`REMOTE_ADDR`) is ASCII, so this does not
  arise in practice.
- The stage's `ackStart` request is fire-and-forget. Whether it arrives is not modelled;
  `Client.StageDisplay.Play` records that it was sent. The 1-second poll and the animation frames
  are one interleaved series of events, in any order.
- `Handlers.Server` uses the corrected claim pattern (`Auth.Authorize`). The pattern as written is
  `Auth.AuthorizeAsWritten`.

## Findings

| source | as written | input that shows it | evidently intended | confidence | as-written member | corrected member |
|---|---|---|---|---|---|---|
| index.php:255 | `preg_match('/^[0-9a-f]{32,}$/i', $k)`: without the `D` modifier, `$` also matches before a final newline, so a key of 32 hex digits plus `"\n"` claims the room and is stored with the newline | claim enabled, keyless room, `k` = `0123456789abcdef0123456789abcdef` + newline | only 32 or more hex digits and nothing else are claimable (`\z` or the `D` modifier) | not executed | `Auth.ClaimAcceptsTrailingNewline` | `Auth.Authorize` |
| index.php:1133 | the stage paints with `warn1Min\|\|10` and `warn2Min\|\|5`, so a warning set to 0 (allowed by `setSettings`, and treated as "off" by the console colour and the auto-prompts) shows on the stage as 10 or 5 minutes | `warn1Min = warn2Min = 0`, 100 s left: console normal, stage second warning (at 400 s: first warning) | the stage uses the stored minutes like the console, with a default only for a missing value; the evidence points both ways, since the console's own settings form (index.php:909-911, `Number(v)\|\|10` and `\|\|5`) also turns an entered 0 into 10 or 5, so a stored 0 arrives only from a legacy `warnSec` under 60 or a hand-made `setSettings` request | not executed, low | `Clock.StageAsWrittenIgnoresDisabledWarnings` | `Clock.StageTier` |
