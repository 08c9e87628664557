# container-monitor in Dafny

A model of the two chat bots in container-monitor that watch Docker
containers and alert subscribers. One bot talks to WhatsApp through an
Evolution API instance (`src/`). The other talks to Telegram (`monitor.py`).
Both run the same monitoring loop. Every `INTERVALO` seconds, and only while
someone is subscribed, each configured container is probed once. The loop
keeps two dictionaries per container:

- `container_down`, a down flag;
- `last_alerts`, the time of the last cooldown-gated alert.

A container that disappears raises a "caiu" (went down) alert once. This
happens only if the flag was clear and the cooldown has elapsed. A container
that comes back raises "voltou" (recovered) at once, without waiting for the
cooldown. A running container whose CPU or memory share is strictly above its
limit raises a threshold alert, which is gated by the same shared cooldown
timestamp. Each alert is sent to every subscriber. Subscribers join and leave
through chat commands, and each bot has its own allow list.

The model has these modules:

| module | file | contents |
|---|---|---|
| `Config` | config.dfy | `CONTAINERS` and `WHATSAPP_ALLOWED_NUMBERS` as parsed from the environment |
| `Probe` | probe.dfy | the decisions of `get_stats`: stopped, unreadable or running, and the CPU/memory arithmetic |
| `Status` | status.dfy | the plain and Markdown status texts |
| `Alerts` | alerts.dfy | one loop iteration (`Step`), one pass over the containers (`Sweep`) and one tick (`Tick`) as pure functions, with the edge and cooldown properties |
| `History` | history.dfy | any sequence of ticks; proves that down/recovered alerts alternate and that gated alerts are spaced by the cooldown |
| `Sink` | sink.dfy | fan-out of each alert to a set of subscribers in any iteration order |
| `MonitorLoop` | loop.dfy | the imperative loop as written (mutable dictionaries, nested send loops), proved equal to `Tick` |
| `Registry` | registry.dfy | subscribe/unsubscribe and the command replies |
| `WhatsApp` | whatsapp.dfy | number normalisation in `is_allowed`, webhook message handling, `send_alert` |
| `Telegram` | telegram.dfy | `cmd_start`, `cmd_stop`, `cmd_status`, `cmd_id` |
| `Text` | text.dfy | Python's `strip`, `lower`, `split`, `join` and `replace` on strings |
| `Optional` | optional.dfy | the option type |

Some inputs are parameters of the model:

- The wall clock (`time.time()`) is `now`.
- The Docker probe results are one `Option<Sample>` per configured container.
- Message delivery is a sequence of `Delivery(destination, alert)` records.
- Alert texts are tags (`Down`, `Recovered`, `Threshold` with its breach lines).
- How a float is printed is the `show` parameter of the status text.
- Python's `round(x, 2)` is the `round2` parameter of `GetStats`.

## Model

| member | source | states |
|---|---|---|
| `Config.ParseContainers` | src/config.py:3 | unset gives `["portal"]`; one field per comma plus one; no field holds a comma; joining the fields with commas gives the raw value back |
| `Config.ContainersRoundTrip` | src/config.py:3 | any non-empty list of comma-free names, joined with commas, parses back to itself |
| `Config.Load` | src/config.py:3-7 | the container list is the parsed `CONTAINERS`; each of `CPU_LIMIT`, `MEM_LIMIT`, `INTERVALO`, `COOLDOWN` is the value given when it is set and its default (50, 70, 30, 300) when it is not; with nothing set, the settings are the defaults |
| `Config.ParseAllowList` | src/config.py:12-14 | unset or empty gives no entries; every entry is non-empty and already stripped |
| `Config.AllowListMembership` | src/config.py:13 | a text is an entry iff it is non-empty and equals some stripped field (both directions) |
| `Config.AllowListKeepsOrder` | src/config.py:12-14 | the list from `a,b` is the list from `a` followed by the list from `b` |
| `Config.AllowListSingleField` | src/config.py:13 | a single field yields its stripped text, or nothing when it is blank |
| `Config.KeepStrippedMembership` | src/config.py:13 | the comprehension keeps exactly the non-empty stripped fields |
| `Text.Strip` | src/config.py:13 | the result is the input with its leading and trailing whitespace cut off: a slice of it, with only whitespace before and after, no whitespace at either end, and empty iff the input is all whitespace (Python's whitespace set) |
| `Text.StripExact` | src/config.py:13 | conversely, a text without whitespace at its ends, surrounded by any whitespace, strips to exactly itself |
| `Text.StripIgnoresSurroundingSpace` | src/main.py:90 | whitespace added around a text does not change its strip |
| `Text.LowerCommutesWithStrip` | src/main.py:90 | `strip().lower()` equals `lower().strip()` |
| `Text.Lower` | src/main.py:90 | same length, each character lower-cased (ASCII letters only) |
| `Text.Split` | src/config.py:3 | one more field than separators; no field holds the separator |
| `Text.SplitJoin` | src/config.py:3 | joining the fields of a split with the separator restores the text |
| `Text.Join` | src/monitor.py:79 | `sep.join(xs)`; its meaning is fixed by `SplitJoin`, `JoinSplit` and `FormatStatusSnoc` |
| `Text.JoinSplit` | src/config.py:3 | splitting the comma-joined fields gives the fields back when none holds a comma |
| `Text.RemoveAll` | src/whatsapp.py:47 | the characters of the result are those of the input minus the removed one |
| `Probe.GetStats` | src/monitor.py:26-54 | a sample exactly when the container is running and its stats can be read, with CPU and memory rounded and sizes in MiB; otherwise none |
| `Probe.CpuPercent` | src/monitor.py:33-42 | zero when the host counter did not advance; otherwise the CPU share is container delta / host delta × CPU count × 100 |
| `Probe.MemPercent` | src/monitor.py:43-45 | usage as a percentage of the limit |
| `Probe.Mebibytes` | src/monitor.py:49 | `x // 1024 // 1024` is the number of whole MiB in `x` |
| `Probe.NotRunningIsAbsent` | src/monitor.py:29-31 | a container whose status is not `running` yields no sample |
| `Probe.MissingPerCpuCountsOne` | src/monitor.py:41 | without a per-CPU list the CPU count defaults to one |
| `Status.FormatStatusSnoc` | src/monitor.py:79 | one container's status is its entry alone; each further container adds one blank line and its entry |
| `Status.AbsentEntry` | src/monitor.py:77-78 | a container without a sample is reported as stopped, led by its name |
| `Status.MarkdownWrapsName` | src/monitor.py:62-67 | the Markdown entry shows the name in bold |
| `Status.Entry` | src/monitor.py:61-67 | one line per container: the label and the numbers when a sample exists, else the label and the stopped suffix; fixed by `AbsentEntry` and `MarkdownWrapsName` |
| `Status.FormatStatus` | src/monitor.py:57-79 | the entries joined by blank lines, one per configured container in order; fixed by `FormatStatusSnoc` |
| `Alerts.Breaches` | src/main.py:38-42 | a CPU line iff CPU > limit and a memory line iff memory > limit (strict), CPU first; empty iff neither limit is exceeded |
| `Alerts.Step` | src/main.py:22-47 | alerts name only this container; other containers are untouched; the down flag flips only on a presence edge; a gated alert needs the cooldown and stamps `now`; without one the timestamp is kept |
| `Alerts.Sweep` | src/main.py:21-47 | alerts name only swept containers; containers outside the list keep their flag and timestamp |
| `Alerts.Tick` | monitor.py:98-131 | with no subscribers nothing is probed, sent or changed; otherwise every configured container is probed, in order |
| `Alerts.StepLocal` | src/main.py:25-47 | a container's step depends only on its own flag and timestamp |
| `Alerts.SweepIsolation` | src/main.py:21-47 | with distinct names, a container's alerts and final state in a pass are those of its own step alone |
| `Alerts.TickIsolation` | monitor.py:101-129 | the same for a whole tick |
| `Alerts.DownEdge` | src/main.py:24-30 | a vanished container that was up and cooled down yields exactly one "down" alert and is marked down at `now` |
| `Alerts.DownHeld` | src/main.py:24-25 | a vanished container already marked down, or still cooling down, yields nothing and keeps its state |
| `Alerts.RecoveryEdge` | src/main.py:32-36 | a container marked down that is running again yields "recovered" first, ignoring the cooldown, and is marked up |
| `Alerts.ThresholdGate` | src/main.py:38-47 | a running container gets a threshold alert iff a limit is exceeded and the shared cooldown has elapsed |
| `Alerts.SharedCooldown` | monitor.py:104-129 | a "down" alert at t0 suppresses a threshold alert before t0 + cooldown; only "recovered" gets through |
| `History.StepGate` | src/main.py:24-47 | one iteration adds at most one presence edge (the flag change) and at most one gated alert, sent at `now` only after the cooldown and then recorded as the timestamp |
| `History.TrackMonitor` | monitor.py:97-131 | over any run of ticks, whatever the cooldown, the per-container flag, timestamp and alert log stay in step |
| `History.Monitor` | src/main.py:17-49 | successive ticks from a starting state, each alert logged with the clock reading of its tick; its properties are `TrackMonitor` and `NoAlertStorm` |
| `History.NoAlertStorm` | src/main.py:17-49 | per container, down and recovered strictly alternate, the first edge leaving the initial flag; each gated alert is at least a cooldown after the previous one, and the first at least a cooldown after the starting timestamp, for any cooldown; with a non-negative cooldown, any two gated alerts are at least a cooldown apart |
| `History.NoAlertStormFromStart` | monitor.py:18-19 | from empty maps, a container's first edge is "down" and its first gated alert goes out no earlier than the clock reading `COOLDOWN`; with a non-negative cooldown, no gated alert does |
| `Sink.Broadcast` | monitor.py:106-109 | each subscriber receives the alert exactly once, and nobody else does |
| `Sink.FanOutSnoc` | monitor.py:113-117 | broadcasting one more alert after a fan-out extends the fan-out |
| `Sink.FanOutLength` | monitor.py:126-128 | a tick sends (number of alerts) × (number of subscribers) messages |
| `Sink.FanOutBlock` | src/whatsapp.py:159-161 | the i-th block of a fan-out is the i-th alert broadcast to every subscriber |
| `MonitorLoop.Visit` | monitor.py:102-129 | the imperative loop body leaves the dictionaries as `Step` does and sends its alerts in order |
| `MonitorLoop.Lost` | src/main.py:24-30 | a vanished container's branch as written sends and records exactly what `Step` does for a missing sample |
| `MonitorLoop.Probed` | src/main.py:31-47 | the running container's branch as written (recovery, then threshold) agrees with `Step` for a present sample |
| `MonitorLoop.Recover` | src/main.py:32-36 | a container marked down gets one "recovered" broadcast and its flag cleared; otherwise nothing happens |
| `MonitorLoop.Collect` | src/main.py:38-42 | the message has a line iff some limit is exceeded, and lists the breaches in the order `Breaches` does |
| `MonitorLoop.Gate` | src/main.py:44-47 | a threshold broadcast and a new timestamp exactly when there is a message and the cooldown has elapsed |
| `MonitorLoop.SweepAll` | src/main.py:21-47 | the `for` loop as written probes every container in order and equals `Sweep`, each alert fanned out to all subscribers |
| `MonitorLoop.Send` | src/main.py:28 | a `send_alert` call extends the fan-out by one broadcast |
| `MonitorLoop.MonitorPass` | src/main.py:17-49 | the loop as written equals `Tick`: same dictionaries, same probes, same alerts, each fanned out to all subscribers |
| `Registry.Subscribe` | src/main.py:93 | the id becomes a member; nobody else changes |
| `Registry.Unsubscribe` | src/main.py:103 | the id stops being a member, with no error if absent; nobody else changes |
| `Registry.RegistryLaws` | monitor.py:59-71 | adding twice equals adding once; discarding a stranger changes nothing; discard undoes a fresh add |
| `WhatsApp.Unformatted` | src/whatsapp.py:47 | drops every `+` and space and keeps every other character |
| `WhatsApp.Clean` | src/whatsapp.py:46-47 | the normalised number contains no `+`, space or `@` |
| `WhatsApp.IgnoresPlusAndSpace` | src/whatsapp.py:47 | inserting a `+` or space anywhere does not change the normalised number |
| `WhatsApp.CutsAtFirstAt` | src/whatsapp.py:47 | everything from the first `@` on is discarded |
| `WhatsApp.KeepsPlainNumber` | src/whatsapp.py:47-48 | a number without `+`, spaces or `@` is its own normal form |
| `WhatsApp.AdmittedEntry` | src/whatsapp.py:48 | an admitted number matches an allow-list entry containing no `+`, space or `@`; entries containing them admit nobody |
| `WhatsApp.IsAllowed` | src/whatsapp.py:46-48 | the normalised number is on the allow list; characterised by `AdmittedEntry` and `AdmittedFromEnvironment` |
| `WhatsApp.AdmittedFromEnvironment` | src/whatsapp.py:46-48 | with the parsed allow list, a number is admitted iff it normalises to a non-empty stripped field (both directions) |
| `WhatsApp.CleanSender` | src/main.py:77 | cutting the JID at `@` before `is_allowed` does not change its verdict |
| `WhatsApp.Sender` | src/main.py:77 | the sender contains no `@` |
| `WhatsApp.Body` | src/main.py:79-80 | a non-empty `conversation` wins; otherwise the extended text, defaulting to empty |
| `WhatsApp.ParseCommand` | src/main.py:90 | all-whitespace text is no command |
| `WhatsApp.CommandIgnoresSurroundingSpace` | src/main.py:90-92 | surrounding whitespace does not change the command |
| `WhatsApp.CommandIgnoresCase` | src/main.py:90 | lower-casing the text first does not change the command |
| `WhatsApp.RecognisedCommand` | src/main.py:90-109 | a word typed with any surrounding whitespace and any ASCII case is looked up lower-cased among the keywords |
| `WhatsApp.Keyword` | src/main.py:92-121 | the keyword lists: `/start`, `start`, `iniciar`; `/stop`, `stop`, `parar`; `/status`, `status`; `/help`, `help`, `ajuda`, `menu`; anything else is unrecognised |
| `WhatsApp.Respond` | src/main.py:92-125 | start subscribes the sender and answers "active"; stop unsubscribes and answers "paused"; status answers the status text, help the menu with the sender's alert flag, anything else "not recognised"; only start and stop change the registry, and only for the sender |
| `WhatsApp.HandleMessage` | src/main.py:74-125 | no reply iff the message is the bot's own, empty or from a number not on the allow list, and then nothing changes; otherwise start/iniciar subscribes the sender, stop/parar unsubscribes it, other commands leave the registry alone, status answers the plain status text, help the menu showing whether the sender is subscribed, anything else "not recognised" |
| `WhatsApp.BlankMessageNotRecognized` | src/main.py:121-125 | an admitted message of blanks passes the emptiness test and is answered "not recognised" |
| `WhatsApp.HandleIdempotent` | src/main.py:92-104 | a duplicated webhook delivery leaves the same registry as a single one |
| `WhatsApp.StartThenStop` | src/main.py:102-104 | start then stop from a new number restores the registry |
| `WhatsApp.SendAlert` | src/whatsapp.py:143-161 | every subscribed number gets the alert exactly once; a send succeeds iff the API answers 200 or 201, and a failure does not stop the rest |
| `Telegram.CmdStart` | monitor.py:55-65 | always answers; "no permission" iff the user is not allowed, leaving the registry unchanged; an allowed user is told monitoring is active and the chat is subscribed |
| `Telegram.CmdStop` | monitor.py:68-72 | silent and without effect for strangers; an allowed user unsubscribes the chat |
| `Telegram.CmdStatus` | monitor.py:75-88 | only allowed users get an answer, the Markdown status text over the configured containers; the registry never changes |
| `Telegram.CmdId` | monitor.py:91-94 | anyone is told their own user id |
| `Telegram.IsAllowed` | monitor.py:22-23 | membership of the user id in `ALLOWED_USERS`; characterised by `CmdStart`, `CmdStop`, `CmdStatus` and `StrangerCannotSubscribe` |
| `Telegram.StrangerCannotSubscribe` | monitor.py:22-23 | a user not on `ALLOWED_USERS` cannot change the registry through any command |
| `Telegram.StartStopRoundTrip` | monitor.py:59-71 | /start then /stop in a new chat restores the registry; /start is idempotent |
| `Telegram.StopIsPerChat` | monitor.py:71 | /stop unsubscribes only the chat it was sent from |

## Left out

- Docker, psutil, aiohttp, the Telegram library and the Evolution API are not modelled. Probe results, the clock and HTTP status codes are inputs.
- Instance creation, QR codes, webhook setup and the `qrcode.updated` and `connection.update` events are not modelled. These are start-up plumbing with no state the core reads.
- `asyncio` scheduling, the `sleep(INTERVALO)` between ticks and concurrency between the webhook and the loop are not modelled. A tick is treated as atomic. The Python tasks share one event loop, so a command can interleave with a tick only at an `await`. One consequence is visible in the source but not modelled: a start or stop handled while a broadcast is awaiting a send changes the very set being iterated (src/whatsapp.py:160; monitor.py:106, 114, 127). Python would then raise `RuntimeError` ("Set changed size during iteration"), which nothing catches, so the monitor task would end. This was read from the code, not observed.
- Exceptions raised by a send are not modelled. A network error or a malformed webhook payload (a `message` that is `null`) would abort the loop or the handler in the source.
- `host_usage()` is not modelled. It is appended to the WhatsApp down and recovered texts and does not influence any decision.
- Message texts and float formatting are not modelled. Alerts are tags, and a present status entry is printed by the `show` parameter.
- `round(x, 2)` is the `round2` parameter.
- `float()` and `int()` parsing of `CPU_LIMIT`, `MEM_LIMIT`, `INTERVALO`, `COOLDOWN` and `ALLOWED_USERS` is not modelled. The settings are given as numbers.
- `Text.Lower`: covers ASCII letters only. This is exact for command matching. Outside ASCII, Python lower-cases only two characters to ASCII letters. The Kelvin sign becomes `k`, which no keyword contains. `İ` becomes `i` followed by a combining dot, which matches no keyword.
- `Sink.Broadcast`: any enumeration of the subscriber set is allowed. Python reuses one enumeration while the set is unchanged.
- `History.NoAlertStorm`: the spacing between any two gated alerts, not just consecutive ones, is stated only for a non-negative cooldown. `int(COOLDOWN)` can be negative, and then later alerts can be earlier than a cooldown after an older one.
- `History.NoAlertStormFromStart`: that every gated alert, not just the first, comes no earlier than `COOLDOWN` is stated only for a non-negative cooldown, for the same reason.
- Python floats are modelled as exact reals: `time.time()`, `CPU_LIMIT`, `MEM_LIMIT`, the CPU and memory percentages and the cooldown comparison `now - last >= COOLDOWN`. The gate's edge cases and the spacing in `History.NoAlertStorm` hold in exact arithmetic, not under IEEE-754 rounding.
- `Probe.MemPercent`: requires a non-zero limit. In `GetStats` a zero limit is a failed read (the `ZeroDivisionError` is caught) and gives no sample.
- The cooldown for a container that has never alerted follows the code: `last_alerts.get(name, 0)` reads 0, so the first gated alert needs `now >= COOLDOWN`. Treating a missing entry as always cooled down would differ only while the clock reads less than `COOLDOWN`, and `time.time()` counts seconds since 1970, so this matters only for a `COOLDOWN` larger than that.
- The CPU share is not bounded below by zero. The code does not clamp a negative counter delta, so the model does not either.
- `Alerts.DownEdge`: requires distinct container names. With `CONTAINERS=a,a` the loop visits `a` twice in one tick, with two probe results that need not agree, so `a`'s alerts are those of two steps. `History.NoAlertStorm` covers repeated names.
- `Alerts.DownHeld`: requires distinct container names, for the same reason.
- `Alerts.RecoveryEdge`: requires distinct container names, for the same reason. A repeated name could report "down" right after "recovered" in one tick.
- `Alerts.ThresholdGate`: requires distinct container names, for the same reason. With a zero cooldown a repeated name gets two threshold alerts in one tick.
- `Alerts.SharedCooldown`: requires distinct container names, for the same reason.
