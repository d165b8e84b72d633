# Network simulator and debounce helper, modelled in Dafny

This project models two stateful pieces of an offline-first demo application.

The first is the development server's network simulator, class `Server` in
`server/Server.js`. It accepts browser connections on an exposed TCP listener.
It relays each one to an internal app server through a pair of throttled
pipes. An operator can switch the simulated condition between `perfect`,
`slow`, `lie-fi` and `offline`. Each of the three conditions other than
`offline` has a row in the `connectionProperties` table: a bandwidth in bits
per second and a setup delay in milliseconds. Switching condition destroys every open connection.
Going offline closes the exposed listener. Any other condition brings the
listener back. The app server is bound at most once.

The second is `debounce(fn, duration)` in `public/scripts/utils/debounce.js`.
It returns a wrapper with one timer slot. Every invocation of the wrapper
cancels the pending call of `fn` and schedules a new one `duration`
milliseconds later.

Files:

- `wrappers.dfy`: module `Wrappers`, an `Option` type.
- `server_model.dfy`: module `ServerModel`, the server as a state machine on values.
  - `State` holds the four state fields of the class: the connection type, the two listener flags and the registry `connections`.
  - It adds the closure state of every accepted socket: the profile it captured, its `closed` flag, whether its delayed connection is pending, and whether its internal socket was opened.
  - It adds a log `effects` of the calls the server makes on listeners, sockets, the file system and timers.
  - `Valid` is the invariant every reachable state keeps. `Step` and `Run` drive the server with events; the lemmas about whole runs are proved over these.
- `server.dfy`: module `Server`, class `Server`.
  - Its fields are the port and the four state fields of the JavaScript class, plus the closure state of each accepted socket (`sockets`) and the call log (`effects`).
  - Each method mirrors a method or a callback of the source: `MakeConnection` is the `makeConnection` arrow function, `OnClose` the `close` listener, `OnDelayElapsed` the expiry of the `setTimeout`.
  - Each method is proved to leave the object in the state the matching `ServerModel` function computes from the old state.
  - A small client drives the class through one scenario: `slow`, an accepted socket, `perfect`, its close and its late timer.
- `debounce.dfy`: module `Debounce`, the debounce helper.
  - Time is an integer clock.
  - `Step` and `Run` model the timer slot on values.
  - `Survivors` is an independent reference definition: the deadlines of the invocations not cancelled by the next one.
  - The record of what ran holds the deadlines of the calls of `fn` that ran; each ran at a tick no earlier than its deadline.
  - `RunMatchesSurvivors` proves the slot computes exactly the survivors when no invocation finds a due call that has not yet run.
  - `RunWithinSurvivors` proves that in any order of timers and invocations the slot computes a subsequence of it.
  - Class `Debounced` holds the slot as a field, with `Invoke` and `Tick` methods.

Several model functions require `Valid` or `ListenersValid` of the state they
start from. No caller in the source establishes these. They are the
invariant that `Init` creates and that `Step` and `Run` keep, so every
state the server can reach meets them.

## Model

| member | source | states |
|---|---|---|
| ServerModel.ConnectionProperties | server/Server.js:24-28 | exactly `offline` has no profile; every profile has a positive rate; the delay is zero exactly for `perfect` |
| ServerModel.ProfilesDegrade | server/Server.js:24-28 | bandwidth strictly decreases and delay strictly increases from `perfect` to `slow` to `lie-fi` |
| ServerModel.Init | server/Server.js:31-37 | a new server has the empty type, both listeners down, no sockets and no calls, and satisfies the invariant |
| Server.Server.constructor | server/Server.js:31-37 | the object starts in the initial state, satisfies the invariant and keeps its port |
| ServerModel.Listen | server/Server.js:107-117 | both listeners are up afterwards; the exposed listener is started; the stale path is removed and the app server bound only if it was down; nothing else changes |
| ServerModel.ListenEffectsCounts | server/Server.js:107-117 | `_listen` starts the exposed listener once, closes nothing, and binds the app server once if it was down and never otherwise |
| Server.Server.Listen | server/Server.js:107-117 | the method leaves the state `ServerModel.Listen` computes |
| ServerModel.DestroyAll | server/Server.js:120-122 | one destroy call per registered socket, in registry order, and nothing else |
| Server.Server.DestroyConnections | server/Server.js:120-122 | the loop appends exactly the destroy calls of the registry and changes nothing else |
| ServerModel.SetConnectionType | server/Server.js:124-139 | the active type again changes nothing at all; any other type is recorded, keeps the registry, and first destroys every registered socket; offline leaves the exposed listener down and closes it only if it was up; any other type leaves both listeners up and starts them only if the exposed one was down |
| ServerModel.SetConnectionTypeListenerCalls | server/Server.js:124-139 | as call counts of one switch: close once exactly when going offline from up; listen once exactly when leaving offline or the initial type while down; bind once exactly on the first start; the destroys come first |
| ServerModel.SetConnectionTypeKeepsValid | server/Server.js:124-139 | a mode switch keeps the invariant |
| Server.Server.SetConnectionType | server/Server.js:124-139 | the method leaves the state `ServerModel.SetConnectionType` computes and keeps the invariant |
| ServerModel.OnServerConnection | server/Server.js:80-105 | the new socket is appended to the registry; it captures the current type's profile; with no delay its relay is wired at once at that rate; otherwise exactly one timer is set for the delay; earlier sockets and the listeners are unchanged |
| ServerModel.OnServerConnectionKeepsValid | server/Server.js:80-105 | accepting a socket keeps the invariant |
| Server.Server.OnServerConnection | server/Server.js:80-105 | the method leaves the state `ServerModel.OnServerConnection` computes and keeps the invariant |
| Server.Server.MakeConnection | server/Server.js:92-98 | the method leaves the state `ServerModel.MakeConnection` computes: nothing if the socket has closed, otherwise an internal socket and two pipes at the captured rate |
| ServerModel.MakeConnection | server/Server.js:92-98 | nothing once the socket has closed; otherwise the socket is marked connected, an internal socket is opened and both relay directions are piped at the captured rate, and nothing else changes |
| ServerModel.OnDelayElapsed | server/Server.js:92-104 | when the delay expires, a closed socket gets no internal connection and no call is made; an open one gets its relay at the rate captured at accept time; other sockets, the registry and the listeners are unchanged |
| ServerModel.OnDelayElapsedKeepsValid | server/Server.js:92-104 | the delay's expiry keeps the invariant |
| Server.Server.OnDelayElapsed | server/Server.js:92-104 | the method leaves the state `ServerModel.OnDelayElapsed` computes and keeps the invariant |
| ServerModel.IndexOf | server/Server.js:86 | `indexOf` yields -1 exactly for an absent socket, and otherwise the position of its first occurrence |
| ServerModel.SpliceOne | server/Server.js:86 | `splice(start, 1)` counts a negative start from the end and clamps it at the front; from that position it removes exactly one entry, keeping the entries before it and shifting the later ones down; a start past the end removes nothing |
| ServerModel.SpliceIndexOfIsWithout | server/Server.js:86 | for a socket registered once, `splice(indexOf(socket), 1)` removes exactly that entry and keeps the others in order |
| ServerModel.SpliceUnregisteredDropsLast | server/Server.js:86 | for a socket that is not registered, the same expression removes the last entry instead |
| ServerModel.NoDuplicatesWithout | server/Server.js:86 | removing a socket keeps every registered socket registered once |
| ServerModel.OnClose | server/Server.js:84-87 | the socket's `closed` flag is set and exactly its entry leaves the registry, which shrinks by one; nothing else changes |
| ServerModel.OnCloseKeepsValid | server/Server.js:84-87 | the close handler keeps the invariant |
| Server.Server.OnClose | server/Server.js:84-87 | the method, using `SpliceOne` and `IndexOf`, leaves the state `ServerModel.OnClose` computes and keeps the invariant |
| ServerModel.Step | server/Server.js:80-139 | every event keeps the invariant; the call log only grows; every socket keeps its profile; a closed socket stays closed and never gains an internal connection; the app server stays up |
| ServerModel.Run | server/Server.js:80-139 | any admissible sequence of events ends in a state that satisfies the invariant |
| ServerModel.AppServerBoundOnce | server/Server.js:113-117 | over any run the app server is bound at most once; once up it stays up and is never bound again |
| ServerModel.NoConnectAfterClose | server/Server.js:92-94 | a socket that closed before its internal connection was opened never gets one, in any later run |
| ServerModel.ProfileCapturedAtAccept | server/Server.js:91-97 | over any run a socket keeps the profile captured at accept, and every pipe of it runs at that profile's rate |
| ServerModel.OfflineThenPerfect | server/Server.js:124-139 | from any reachable state, including the initial one, going offline and then to `perfect` leaves the exposed listener up and the app server bound exactly once |
| Server.NewSlow | server/Server.js:124-139 | a new server switched to `slow` has started the exposed listener, removed the stale path and bound the app server, in that order |
| Server.StartSlow | server/Server.js:80-105 | switching to `slow` a second time changes nothing; a socket accepted under `slow` is registered and waits 3000 ms |
| Server.SlowSocketClosedEarly | server/Server.js:84-104 | switching to `perfect` destroys the waiting socket; after its close, the expiring timer opens no internal socket |
| Server.SlowThenPerfect | server/Server.js:80-139 | in this scenario the app server is bound once, the early-closed socket is never connected, and a socket accepted under `perfect` is relayed at once with both pipes at 100000000 bps |
| Debounce.Step | public/scripts/utils/debounce.js:3-5 | an invocation cancels any pending call, leaves exactly one, due `duration` after it, and never runs `fn`; a tick runs the pending call exactly when its deadline is not later than the tick, once, records its deadline and empties the slot; a tick before the deadline keeps the pending call |
| Debounce.Run | public/scripts/utils/debounce.js:1-7 | the record of the deadlines of the calls of `fn` that ran only grows |
| Debounce.Survivors | public/scripts/utils/debounce.js:4-5 | the reference sequence of deadlines is never longer than the invocations, and the last invocation always survives |
| Debounce.StepMatchesSurvivors | public/scripts/utils/debounce.js:3-5 | one event of the timer slot matches the reference: the calls run plus the pending deadline, followed by the survivors of the invocations to come, is unchanged |
| Debounce.RunMatchesSurvivors | public/scripts/utils/debounce.js:1-7 | over any run in which no invocation finds a due call that has not yet run, the deadlines of the calls of `fn` that ran, followed by the pending deadline, are exactly the reference survivors of the invocations |
| Debounce.StepWithinSurvivors | public/scripts/utils/debounce.js:3-5 | one event, including an invocation that cancels an overdue call, keeps the calls run plus the pending deadline plus the survivors to come a subsequence of what they were |
| Debounce.RunWithinSurvivors | public/scripts/utils/debounce.js:1-7 | over any run, only calls of surviving invocations run, each at most once and in order: the deadlines of the calls of `fn` that ran, followed by the pending deadline, are a subsequence of the reference survivors |
| Debounce.OverdueCallCancelled | public/scripts/utils/debounce.js:4 | an invocation that reaches the wrapper before the event loop runs an overdue call cancels it, so the subsequence can be strict |
| Debounce.SameInstantCallsCancel | public/scripts/utils/debounce.js:4-5 | with duration 0, a second invocation in the same task cancels the first, and one call of `fn` runs |
| Debounce.BurstIsOnTime | public/scripts/utils/debounce.js:4-5 | in a burst no invocation finds an overdue call, whatever ticks come between |
| Debounce.BurstSurvivesOnce | public/scripts/utils/debounce.js:4-5 | in a burst, where each gap is shorter than `duration`, only the last invocation survives |
| Debounce.SpacedCallsAllSurvive | public/scripts/utils/debounce.js:4-5 | invocations spaced at least `duration` apart all survive, each at its own deadline |
| Debounce.BurstFiresOnceAfterLast | public/scripts/utils/debounce.js:4-5 | after a burst from a fresh wrapper, whatever ticks come between, only the call scheduled for `duration` after the last invocation can run: either it has run, once, at a tick no earlier than that deadline, or nothing has run and that deadline is pending |
| Debounce.TimerIsLastCallPlusDuration | public/scripts/utils/debounce.js:5 | the pending deadline is always the most recent invocation plus `duration` |
| Debounce.Init | public/scripts/utils/debounce.js:1-2 | right after `debounce(fn, duration)` returns, the clock is the current time, no call is pending and none has run |
| Debounce.Debounced.constructor | public/scripts/utils/debounce.js:1-2 | a new wrapper has an empty timer slot |
| Debounce.Debounced.Invoke | public/scripts/utils/debounce.js:3-5 | the method clears the slot and sets it to a new deadline, as `Step` does for an invocation |
| Debounce.Debounced.Tick | public/scripts/utils/debounce.js:5 | the method reports that `fn` ran exactly when the deadline was due, and leaves the state `Step` computes for a tick |
| Debounce.SeparateSlots | public/scripts/utils/debounce.js:2 | two debounced functions have separate slots: re-invoking one does not cancel the other's pending call |

## Left out

- The Express application, its static routes, the templates and compression (server/Server.js:14-18, 32, 39, 42-68). They are HTTP framework configuration with no logic of their own.
- Socket I/O, the `error` handlers that log (server/Server.js:89, 95) and the pacing of the `throttle` library. Each relay direction is recorded only as a pipe with its rate; byte order and the actual rate are promises of that library.
- The platform-dependent app socket path, `Date.now` and the file-system existence check (server/Server.js:20-22, 114). The removal of a stale path is one abstract call made before the one-time bind.
- Event-loop asynchrony. `destroy()` and the `close` event it later causes are separate events, so the registry shrinks only in the close handler. Any interleaving of events is allowed, including a timer expiring between a destroy and its close. Concurrency itself is not modelled. The server model has no clock: `DelayElapsed` may arrive at any point after `ScheduleConnect(id, delay)`, so the `slow` and `lie-fi` setup delays are recorded only as the requested delay, not as a lower bound on when the internal connection opens.
- Unknown mode names. Modes are a datatype, so the crash on an undefined profile for an unknown name (server/Server.js:91, 100) cannot be expressed. The initial empty type is `None`.
- ServerModel.OnServerConnection: requires that the exposed listener is up and that the socket is new. These are what the network library guarantees for a `connection` event, not checks made by the server.
- ServerModel.OnClose: requires that the socket has not closed before. Node emits `close` once per socket.
- Listener failures. `listen` on the exposed port (server/Server.js:109) and on the app socket path (server/Server.js:115) can fail, for example when the port is in use. Neither server has an `error` handler, so the process exits. `fs.unlinkSync` (server/Server.js:114) can also throw out of `setConnectionType`. `ServerModel.Listen` always succeeds, and the process exit is not modelled.
- Debounce.RunMatchesSurvivors: the equality with the reference holds only for runs in which no invocation finds an overdue call (`OnTime`). In the event loop a timer runs at or after its deadline, and an invocation processed first cancels it. `Enabled` allows such runs, and `RunWithinSurvivors` covers them with a subsequence instead of equality. Bursts are always on time (`BurstIsOnTime`).
- Debounce.Step: `duration` is a natural number, and a pending call is due once the clock reaches its deadline. How `setTimeout` clamps negative or missing durations is not modelled, nor that in a browser durations that do not fit a signed 32-bit integer wrap around modulo 2^32 (a negative result runs at once).
- Debounce.Debounced.Invoke: takes only the time. The wrapper's own arguments never reach `fn`, so `fn` is observed only through the deadlines of its calls that ran. The tick at which each ran is not recorded; `Step` proves it is no earlier than the deadline. The clock and that record are ghost state of the environment.
- public/scripts/main/IndexController.js, Toasts.js, Converter.js, constants.js and gulpfile.js: DOM, IndexedDB, fetch, promises, data and build plumbing. They are not part of this model.
