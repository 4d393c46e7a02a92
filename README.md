# appmon: app-time accounting and command dispatch

A model of the core of appmon, a daemon that measures how long the focused
application has been in the foreground. It keeps two maps keyed by application
name, one of limits in minutes and one of accumulated seconds. Once per
second it samples the foreground application. When that application's counter
reaches `limit * 60` it sends one alert and resets the counter. A limit of zero
or less means the application is not watched. A local control channel answers
`getLimits`, `setLimit` and `getTimers` requests.

Files:

- `wrappers.dfy`: `Option`, the optional payload of a response.
- `config.dfy`: the configuration entry `App` and the in-memory configuration `AppConfig`.
- `monitor.dfy`: the sampler state (class `Monitor`). Each operation is an atomic step, as it
  is under the daemon's single lock. Beside the class are the pure functions that
  specify it: `Step` is one tick, `Replay` is a run of ticks, `LimitsOf` builds the
  limits map from a configuration, and `Consistent` is the state invariant. The lemmas
  are about these functions.
- `daemon.dfy`: the request handler that the daemon passes to the control server
  (`Handle`), plus two client scenarios built on it.

The alert sink is modelled by `Tick` returning `alert: bool` (true means the
alert was sent for the sampled application). For a run of ticks, it is the list
of alerted names in order. The foreground application is a parameter of
`Tick`, and the sampling loop `Run` takes a finite sequence of sampled names.
Dafny maps are values, so a snapshot from `GetTimers` is independent of later
changes to the state, in both directions.

Two behaviours of the code that are easy to miss:

- `setLimit` appends a new entry to the configuration list. It never replaces an
  entry that is already there, so `getLimits` can report the same key twice.
- `SetLimit` creates a counter of 0 for its key even when the new limit is zero or
  less. So a counter can exist for a key that was never sampled with a
  positive limit. The invariant `Consistent` allows this.

## Model

| member | source | states |
|---|---|---|
| `Monitor.LimitsOf` | internal/monitor/monitor.go:23-27 | the keys of the limits map built from a configuration list are exactly the `SystemName`s in the list |
| `Monitor.LastEntryWins` | internal/monitor/monitor.go:25-27 | a key's limit is the `Limit` of the last list entry with that name, so later duplicates overwrite earlier ones |
| `Monitor.Monitor.constructor` | internal/monitor/monitor.go:23-32 | the new monitor has no counters, has limits equal to `LimitsOf(apps)`, and satisfies the invariant |
| `Monitor.Step` | internal/monitor/monitor.go:47-60 | one tick: an app with no limit or a limit <= 0 changes nothing and gets no alert; the alert fires exactly when the incremented counter reaches `limit*60`; below that the counter is old+1 (a missing entry counts as 0); after an alert it is 0; other apps' counters are untouched; the invariant is kept, and under it the alert comes exactly at the threshold |
| `Monitor.Monitor.Tick` | internal/monitor/monitor.go:47-60 | the tick on the object: limits unchanged, new counters and alert equal to `Step` of the old state, invariant preserved |
| `Monitor.Monitor.Run` | internal/monitor/monitor.go:42-62 | the sampling loop over a given sequence of foreground apps: limits unchanged, counters and alert sequence equal to `Replay` of the old state, invariant preserved |
| `Monitor.Replay` | internal/monitor/monitor.go:42-62 | a run of ticks over a sequence of samples raises at most one alert per tick, and only for a sampled app with a positive limit; `ReplayKeepsConsistent`, `ReplayAppend` and the window lemmas below give the rest of its meaning |
| `Monitor.ReplayKeepsConsistent` | internal/monitor/monitor.go:47-60 | any run of ticks preserves the invariant: counters only for keys with a limit, never negative, below `limit*60` for positive limits |
| `Monitor.ReplayAppend` | internal/monitor/monitor.go:42-62 | running one sequence of samples and then another is the same as running the two joined, with the alerts joined |
| `Monitor.Accumulate` | internal/monitor/monitor.go:55-56 | while the counter stays below the threshold, n consecutive ticks add exactly n and raise no alert |
| `Monitor.AlertAfterRemaining` | internal/monitor/monitor.go:55-59 | from a counter c below threshold T, the first T-c-1 consecutive ticks raise no alert, and tick T-c raises exactly one alert and leaves the counter at 0 with every other counter unchanged |
| `Monitor.OneAlertPerWindow` | internal/monitor/monitor.go:55-59 | from a zero or missing counter with limit L > 0, exactly L*60 consecutive ticks raise exactly one alert, on the last tick, and the counter ends at 0 |
| `Monitor.PeriodicAlerts` | internal/monitor/monitor.go:55-59 | from a zero counter, k*L*60 consecutive ticks raise exactly k alerts, so each alert after a reset needs another full window |
| `Monitor.OthersFreeze` | internal/monitor/monitor.go:47-55 | ticks that sample other apps leave an app's counter frozen (same presence, same value) and never alert it |
| `Monitor.FirefoxMinute` | internal/monitor/monitor.go:55-59 | a limit of 1 minute for "firefox" and 60 samples of it give one alert and leave its counter at 0 |
| `Monitor.Monitor.GetTimers` | internal/monitor/monitor.go:65-73 | the copy it returns equals the counters map, and it changes nothing |
| `Monitor.Monitor.SetLimit` | internal/monitor/monitor.go:75-80 | sets `limits[app]` to the new minutes and `timers[app]` to 0, leaves every other key of both maps unchanged, and preserves the invariant |
| `Daemon.Handle` | cmd/daemon/main.go:61-78 | `getLimits` succeeds with the configuration list and changes nothing; `setLimit` appends exactly one entry at the end of the list, sets that app's limit and zeroes its counter, and succeeds with no payload; `getTimers` succeeds with the counters snapshot and changes nothing; any other command fails with no payload and changes nothing |
| `Daemon.SetLimitThenQuery` | cmd/daemon/main.go:63-74 | after `setLimit` on a fresh daemon, `getLimits` returns the original list plus the new entry, and `getTimers` shows the new key's counter at 0 |
| `Daemon.TimersAtStartup` | cmd/daemon/main.go:73-74 | right after start-up, `getTimers` returns an empty counters map |

## Left out

- The ticker, the `ctx.Done()` select and the goroutine that drive `Run`: `Run` takes
  the finite sequence of sampled names instead, and stopping is the end of that sequence.
- Daemon.Handle: each request is modelled as one atomic step, but the handler does not run
  under the monitor's lock. It reads and appends to the configuration list outside that lock,
  and each connection runs it on its own goroutine. Two concurrent `setLimit` requests can
  therefore lose an entry, or leave the last configuration entry for a key disagreeing with
  the monitor's limit. That race is not modelled.
- The monitor's mutex: each monitor operation (tick, `GetTimers`, `SetLimit`) is one atomic
  step, so interleavings of these operations are sequences of these steps.
- The hard-coded foreground query (`getActiveApp`). It is a stub, so the sampled name is
  a parameter of `Tick`.
- Sending the desktop notification, which runs an external command. The model only
  records that an alert was raised.
- Saving the configuration after `setLimit`. It is best-effort and its result is
  discarded, so it is a no-op here.
- All of the control server: the socket, permissions, the accept loop and its backoff,
  one goroutine per connection, and JSON decoding/encoding. A malformed request never
  reaches the handler, so that path is not modelled.
- Loading the configuration file and the rest of daemon start-up and shutdown: paths,
  the default configuration, signals, the 5-second wait, and removing the socket.
- The 64-bit overflow of `limit*60` and of the counter: the model uses mathematical integers.
