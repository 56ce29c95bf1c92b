# Caret InputTip — verified model of the state decoding and helper supervision

Caret InputTip is an editor extension that draws a small coloured square next to
the text cursor. The colour shows the keyboard state. Caps lock on gives blue.
Native (e.g. Chinese) IME input gives yellow. English input gives pink. The
marker is red until the first status arrives. A separately spawned helper
(`ime_checker.py`, shipped as `ime_checker.exe`) asks Windows for the IME open
status, the conversion mode and the caps-lock key state. It writes one status
line such as `1,False\n` to a named pipe every 100 ms. The extension
(`extension.js`) reads the pipe and decides the colour. It also keeps the
helper running: one handle at a time, a restart one second after the helper
exits, and a stop on deactivation.

This project models that core in Dafny and proves properties of it.

| file | module | models |
|---|---|---|
| `wrappers.dfy` | `Wrappers` | `Option`: JavaScript `undefined`/`null`, Python `None` |
| `js_string.dfy` | `JsString` | JavaScript `trim` (ECMAScript whitespace and line terminators) and `split` with a one-character separator |
| `marker.dfy` | `Marker` | the colour decision of the pipe `data` handler, plus class `Activation`: the colour, decoration and reconnect state the `activate` closure mutates |
| `supervisor.dfy` | `Supervisor` | class `ImeSupervisor`: the module-level `imeProcess` handle, `startImeChecker`, the process `exit`/`error` listeners, `stopImeChecker`, `deactivate` |
| `lifecycle.dfy` | `Lifecycle` | `activate` over both kinds of state |
| `ime_checker.dfy` | `ImeChecker` | `get_input_mode`, `is_caps_lock_on` and the status line of `send_data`. The OS replies are integer parameters |
| `protocol.dfy` | `Protocol` | the helper's line decoded by the extension: round trips |

Modelling choices:
- Colours are the CSS colour strings of the source (`"red"`, `"yellow"`, `"pink"`, `"blue"`). So "the marker never leaves the palette" is a real property.
- The decoration object is reduced to the colour it was built with and a count of how many were created. A rebuild is visible as that count going up.
- The 1000 ms timers become counters of pending restarts and pending reconnects. `FireRestart` and `FireReconnect` consume one entry.
- A spawned process is an abstract handle. `running` holds the processes whose `exit` event has not arrived yet. `killed` holds those that `kill` was sent to.
- Python's `x & 1` on an integer is `x % 2` (Dafny's `%` is Euclidean). That is the two's-complement low bit for negative values too. `LowBitIsBitwiseAnd16` checks this against a 16-bit bitwise AND for `GetKeyState`'s `SHORT`.

Behaviour of the code that the model keeps as written:
- The `data` handler trims the chunk and splits it only on `,`. It never splits on line breaks and never skips a chunk. A chunk without a comma still picks yellow or pink when it trims to `1` or `0`. Fields after the second are ignored. Two status lines arriving in one chunk lose their caps state (`Protocol.TwoMessagesInOneChunk`).
- A pipe error other than `ENOENT` is only logged. Nothing is scheduled for it.
- `imeProcess` is assigned before the process's `error` listener can run, and that listener leaves it set. So after a launch error, later `startImeChecker` calls do nothing unless an `exit` event follows.
- The `exit` listener schedules a restart for every exit, whatever the exit code. The comment at extension.js:130 gives a crash as the reason for the restart, and the one at extension.js:121 says a running helper is not started a second time. A `stopImeChecker` kill also ends in an `exit` event and so in a restart; see Findings.

## Model

| member | source | states |
|---|---|---|
| `JsString.TrimStart` | extension.js:50 | the leading part of `trim`: the result is no longer than the input and does not start with whitespace |
| `JsString.TrimEnd` | extension.js:50 | the trailing part of `trim`: the result is no longer than the input and does not end with whitespace |
| `JsString.Trim` | extension.js:50 | `trim`: the result is no longer than the input and neither starts nor ends with whitespace |
| `JsString.TrimEndPrefix` | extension.js:50 | trimming the end never changes the first character of a string that stays non-empty |
| `JsString.TrimStartSpec` | extension.js:50 | `trim`'s leading part: the kept text is a suffix of the input, and everything removed before it is whitespace |
| `JsString.TrimEndSpec` | extension.js:50 | `trim`'s trailing part: the kept text is a prefix of the input, and everything removed after it is whitespace |
| `JsString.TrimSpec` | extension.js:50 | the chunk is whitespace + trimmed text + whitespace, and the trimmed text neither starts nor ends with whitespace |
| `JsString.TrimEmpty` | extension.js:50 | the trimmed chunk is empty exactly when the chunk is all whitespace |
| `JsString.TrimPadded` | extension.js:50 | `trim` removes whitespace padding and nothing else |
| `JsString.TrimAbsorbsPadding` | extension.js:50 | adding whitespace around a chunk does not change its trimmed text |
| `JsString.TrimIdempotent` | extension.js:50 | trimming twice equals trimming once |
| `JsString.Split` | extension.js:51 | `split` always yields at least one piece |
| `JsString.SplitSpec` | extension.js:51 | no piece holds the separator, and joining the pieces with it gives back the string |
| `JsString.SplitCount` | extension.js:51 | there are two or more pieces exactly when the string holds a comma |
| `JsString.SplitHead` | extension.js:51 | the text before the first separator is the first piece, and the rest is split independently |
| `JsString.SplitJoin` | extension.js:51 | `split` inverts `join` on comma-free pieces |
| `Marker.Destructure` | extension.js:51 | `capsLockState` is `undefined` exactly when there is no comma; neither field holds a comma; with no comma, `inputMode` is the whole trimmed chunk |
| `Marker.DestructureTwo` | extension.js:51 | for `a,b` or `a,b,...`, the two fields are `a` and `b` |
| `Marker.Decide` | extension.js:54-64 | the new colour is the current one or yellow, pink or blue; caps `"True"` always gives blue and nothing else turns the marker blue; an unrecognised mode without caps keeps the current colour |
| `Marker.NextColor` | extension.js:14-64 | the handler's colour is the current one or yellow, pink or blue, so starting from a palette colour (red initially) it stays in {red, yellow, pink, blue} |
| `Marker.TwoOrMoreFields` | extension.js:50-64 | for a trimmed chunk `a,b[,...]`, the colour depends only on `a` and `b`: fields after the second are ignored |
| `Marker.NoCommaNoCaps` | extension.js:51-64 | a chunk without a comma is decided by its trimmed text alone and never turns the marker blue |
| `Marker.NextColorIdempotent` | extension.js:54-64 | applying the same chunk twice decides the same colour as applying it once |
| `Marker.PaddingIgnored` | extension.js:50 | whitespace around a chunk never changes the decision |
| `Marker.Activation.constructor` | extension.js:14-97 | activation state: red colour, one decoration built, one connection attempt, no pending reconnect |
| `Marker.Activation.OnData` | extension.js:49-82 | the colour becomes the decided colour; the decoration is rebuilt (count + 1) exactly when that colour differs; otherwise nothing changes; the palette invariant holds |
| `Marker.Activation.OnPipeError` | extension.js:86-93 | a reconnect is scheduled if and only if the error code is `ENOENT`, and nothing else changes |
| `Marker.Activation.FireReconnect` | extension.js:91 | a pending reconnect is consumed and one more connection attempt is made |
| `Marker.RepeatedChunk` | extension.js:49-82 | in every state, the same chunk delivered twice rebuilds the decoration at most once: `decorationsCreated` goes up by one exactly when the first delivery changes the colour, the second delivery never rebuilds, and the pipe client's counters stay |
| `Supervisor.ImeSupervisor.constructor` | extension.js:5 | no handle, no pending restarts, no processes |
| `Supervisor.ImeSupervisor.AtMostOneLive` | extension.js:121 | when every un-killed running process is the held one, at most one helper is live |
| `Supervisor.ImeSupervisor.Start` | extension.js:120-124 | with a handle held nothing changes; otherwise one fresh process is spawned and held |
| `Supervisor.ImeSupervisor.OnExit` | extension.js:127-132 | as written: the handle is cleared and exactly one restart is scheduled; the process leaves the running set |
| `Supervisor.ImeSupervisor.OnExitGuarded` | extension.js:127-132 | corrected: only the held process's exit clears the handle and schedules one restart; the single-live-helper invariant is preserved |
| `Supervisor.ImeSupervisor.OnLaunchError` | extension.js:134-136 | a launch error of a spawned process changes neither the handle nor the timers |
| `Supervisor.ImeSupervisor.FireRestart` | extension.js:131 | one pending restart is consumed and `startImeChecker` runs: a fresh handle is spawned and held exactly when none was held |
| `Supervisor.ImeSupervisor.Stop` | extension.js:142-147 | afterwards no handle is held; the held process, if any, is killed; with no handle nothing changes, so a second call is a no-op |
| `Supervisor.ImeSupervisor.Deactivate` | extension.js:152-154 | `deactivate` has exactly the effect of `stopImeChecker` |
| `Supervisor.RestartAfterDeactivate` | extension.js:127-147 | as written, the exit of the helper killed by `deactivate` schedules a restart that spawns a new helper |
| `Supervisor.StaleExitOrphansHelper` | extension.js:121-147 | as written, start, stop, start, then the first helper's exit leaves two live helpers |
| `Supervisor.StaleExitGuarded` | extension.js:121-147 | with the guarded listener the same events leave one live helper and no pending restart |
| `Lifecycle.Activate` | extension.js:10-115 | activation yields the initial marker state and a held helper handle, spawned only if none was held |
| `ImeChecker.LowBit` | ime_checker.py:72 | `x & 1` is 0 or 1 and has the parity of `x` |
| `ImeChecker.LowBitIsBitwiseAnd16` | ime_checker.py:76-77 | on a 16-bit key state, the low bit equals the bitwise AND with 1 |
| `ImeChecker.InputMode` | ime_checker.py:64-72 | 0 when the open status is 0; otherwise 1 exactly when the conversion mode is odd; always 0 or 1 |
| `ImeChecker.IsCapsLockOn` | ime_checker.py:74-77 | true if and only if bit 0 of the key state is set; on a 16-bit key state that is the bitwise AND with 1 |
| `ImeChecker.NatString` | ime_checker.py:86 | `str(n)`: only decimal digits, a single character exactly below 10, no leading zero |
| `ImeChecker.NatStringValue` | ime_checker.py:86 | the digits of `str(n)` denote `n` |
| `ImeChecker.IntString` | ime_checker.py:86 | `str(n)`: a leading minus exactly for negatives, and a decimal digit at every other position, the first one included for non-negative `n` |
| `ImeChecker.IntStringSmall` | ime_checker.py:86 | `str(n)` is `"0"` exactly for 0 and `"1"` exactly for 1 |
| `ImeChecker.Message` | ime_checker.py:86 | the status line holds exactly one comma and exactly one line break, and ends with it |
| `ImeChecker.HelperMessage` | ime_checker.py:82-86 | the helper sends one of four lines; it starts with `1` exactly for an open IME in native mode, and carries `True` exactly with caps lock on |
| `ImeChecker.BitMessage` | ime_checker.py:86 | for modes 0 and 1 the line is `0,True`, `0,False`, `1,True` or `1,False` with its line break |
| `Protocol.TrimMessage` | ime_checker.py:86 | `trim` strips exactly the status line's line break |
| `Protocol.MessageRoundTrip` | extension.js:50-64 | the decoded line gives blue when caps is on, else yellow for mode 1, pink for mode 0, and keeps the colour for any other mode |
| `Protocol.HelperRoundTrip` | ime_checker.py:64-86 | from any OS readings, the extension decides blue, yellow or pink independently of the previous colour |
| `Protocol.TwoMessagesInOneChunk` | extension.js:50-64 | two status lines in one chunk: only the first line's mode counts and caps lock is lost |
| `Protocol.TrimTwoMessages` | extension.js:50-51 | in two lines, the second field runs across the line break and is never `"True"` |

## Findings

| source | as written | input that shows it | evidently intended | confidence | as-written member | corrected member |
|---|---|---|---|---|---|---|
| extension.js:127-147 | The `exit` listener of every spawned process clears `imeProcess` and schedules a restart. This includes a process that `stopImeChecker` has just killed: `kill` makes it exit. | `startImeChecker`, `deactivate`, exit of the killed helper, timer fires: a new helper runs after deactivation. Or `startImeChecker`, `stopImeChecker`, `startImeChecker`, exit of the first helper, timer fires: the second helper is no longer held and a third is spawned, so two helpers are live. | Only the exit of the process currently held should clear the handle and schedule a restart. Then stop is final and at most one un-killed helper exists. | not executed; medium (depends on Node emitting `exit` after `kill`, which it does when the child terminates) | `Supervisor.StaleExitOrphansHelper` | `Supervisor.ImeSupervisor.OnExitGuarded` |

`Supervisor.RestartAfterDeactivate` shows the deactivation half of the same
finding. `SingleLiveHelper` is the invariant "every running, un-killed process
is the held one". `Start`, `Stop`, `Deactivate`, `FireRestart`,
`OnLaunchError` and `OnExitGuarded` preserve it. `OnExit` as written does not.

## Left out

- The editor API is not modelled: creating and disposing decoration types, `setDecorations`, and the selection and active-editor subscriptions (extension.js:17-41, 69-81, 99-111). The decoration is only "rebuilt / not rebuilt".
- `updateTriangleDecoration` and the redraw on cursor moves and editor switches: these are host UI.
- `net.createConnection` and the pipe transport are not modelled. A chunk is an opaque string, as the handler sees it. Whether a connection succeeded is not modelled, because the code keeps no record of it.
- `spawn`, `kill` and the `__dirname` path resolution are not modelled: these are foreign process calls. Spawning yields a fresh abstract handle. A kill is recorded in `killed`.
- The 1000 ms timer delays are not modelled: these are wall-clock timing. Timers are pending counters with no ordering between them.
- All Win32 and ctypes calls are not modelled: `GetForegroundWindow`, `ImmGetDefaultIMEWnd`, `SendMessageTimeoutW`, `GetKeyState`, and the named-pipe creation and writes (ime_checker.py:11-61, 98-122). Their results are integer parameters.
- The `send_data` polling loop, its 100 ms sleep, and its stop on a write error (ime_checker.py:80-96) are not modelled: this is I/O. Only the line it formats is modelled.
- Console logging is not modelled.
- `ImeChecker.LowBitIsBitwiseAnd16`: the bitwise cross-check is stated for 16-bit values only. `LowBit` itself holds for every integer, including the 64-bit `LPARAM` conversion mode.
