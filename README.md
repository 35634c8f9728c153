# tasksqueue: queue registry and deduplicating scheduler

A Dafny model of `SergeLiatko\TasksQueue\Queue`, a WordPress helper that runs jobs
later through WP-Cron. The class keeps a list of queue names. Every name carries the
namespace `tasks_queue_`. One name is the default. On construction the class
subscribes its `execute` method to each queue's hook. `schedule(job, args, queue)`
resolves the queue name, falling back to the default. It then asks cron to store the
event `[job, args]` under that hook. If the same event is already pending, it
refuses and returns `false`.

Modules:

- `Wrappers`: the `Option` type.
- `QueueNames`: the pure string logic. It covers `prefix` and its inverse, PHP's
  `array_unique` and `array_filter` as `setQueues` uses them, the normalisation
  pipeline, and the default-append step of `getInstance`.
- `WordPress`: the host as explicit state. `Hooks` is the `add_action` table and
  `Cron` is the store of single events. `wp_next_scheduled` is a membership test.
  `wp_schedule_single_event` returns a nondeterministic boolean. When it returns true,
  exactly one (event, timestamp) entry is added. When it returns false, the store is
  unchanged.
- `TasksQueue`: class `Queue` has the fields `queues` and `default`, plus the
  constructor, `setQueues`, `setDefault`, `validateQueue` and `schedule`. Class
  `Singleton` is the static `$instance` slot with `getInstance`, `setInstance` and `add`.
  Three client methods, `ConfigurationScenario`, `ResolutionScenario` and
  `DedupScenario`, spell out the behaviour on example inputs.

The clock (`time()`) is a parameter `now` of `Schedule` and `Add`. This revision of
`src/Queue.php` has no delay parameter, no `addLater` and no delay constants, so the
model schedules every event at `now`.

## Model

| member | source | states |
|---|---|---|
| `QueueNames.Prefix` | src/Queue.php:150-152 | the namespace token, "_" and the name; its properties are stated by `StripPrefixOfPrefix` (it can be undone) and `PrefixInjective` (no two names collide) |
| `QueueNames.StripPrefix` | src/Queue.php:150-152 | when it recovers a raw name from a string, prefixing that raw name gives the string back (the inverse of `prefix`) |
| `QueueNames.StripPrefixOfPrefix` | src/Queue.php:150-152 | stripping a prefixed name returns exactly the raw name, so every `prefix` result is a queue name |
| `QueueNames.PrefixInjective` | src/Queue.php:150-152 | two raw names give the same prefixed name if and only if they are equal |
| `QueueNames.Unique` | src/Queue.php:121 | `array_unique`: the result has no duplicates and holds exactly the values of the input |
| `QueueNames.UniqueKeepsFirstOccurrenceOrder` | src/Queue.php:121 | the kept values are listed in the order of their first occurrence in the input |
| `QueueNames.QueueNameNotFalsy` | src/Queue.php:119 | a prefixed name is never a falsy PHP string ("" or "0") |
| `QueueNames.Filter` | src/Queue.php:119 | `array_filter`: the values kept are exactly the non-falsy ones, and a list with no falsy element comes back unchanged |
| `QueueNames.FilterAppend` | src/Queue.php:119 | filtering distributes over concatenation, which with `FilterSingle` fixes the order and the repeats of the result |
| `QueueNames.FilterSingle` | src/Queue.php:119 | a one-element list loses its element exactly when it is falsy |
| `QueueNames.FilterShorter` | src/Queue.php:119 | filtering never makes a list longer |
| `QueueNames.PrefixAll` | src/Queue.php:119-121 | `array_map(prefix, …)`: same length, and each position holds the prefixed element of the input at that position |
| `QueueNames.NormalizeQueues` | src/Queue.php:119-122 | the registered names have no duplicates, every raw name's prefixed form is in them, and each of them is a prefixed raw name from the input |
| `QueueNames.NormalizeMembership` | src/Queue.php:119-122 | a raw name's prefixed form is registered if and only if the raw name was listed |
| `QueueNames.NormalizeDropsNothing` | src/Queue.php:119-122 | the filter step drops nothing: the result is the prefixed unique names, one per distinct raw name |
| `QueueNames.WithDefault` | src/Queue.php:65-67 | the default is present afterwards, the caller's list is kept as a prefix, nothing else is added, and a list that already holds the default is returned as is |
| `QueueNames.DefaultIsRegistered` | src/Queue.php:65-68 | whatever names the caller lists, the prefixed default is registered |
| `WordPress.Hooks.AddAction` | src/Queue.php:40 | `add_action` appends exactly one registration and changes nothing else |
| `WordPress.Cron.ScheduleSingleEvent` | src/Queue.php:100 | on success the store gains exactly the one (event, time) entry and the event is pending; on failure the store is unchanged |
| `WordPress.Cron.NextScheduled` | src/Queue.php:99 | `wp_next_scheduled` compared with `false`: true when some stored entry has exactly this hook and argument array; `ScheduleSingleEvent` ensures it holds after a successful insert |
| `TasksQueue.Params` | src/Queue.php:98 | the payload `array($job, $args)`: two elements, the job first and the ordered args second; `ParamsInjective` states that it identifies job and args |
| `TasksQueue.ParamsInjective` | src/Queue.php:98 | two `array($job, $args)` payloads are equal if and only if they have the same job and the same ordered args |
| `TasksQueue.ArgsOrderMatters` | src/Queue.php:98-99 | args `[1, 2]` and `[2, 1]` give different cron events on the same queue |
| `TasksQueue.Subscriptions` | src/Queue.php:39-40 | one `execute` registration (priority 10, two accepted args) per queue name, in list order |
| `TasksQueue.SubscriptionsOncePerQueue` | src/Queue.php:39-41 | for distinct names, each registered name gets exactly one `execute` subscription and every other hook gets none |
| `TasksQueue.Queue.constructor` | src/Queue.php:36-42 | all names are well formed and unique, the queues and default are set, and the hook table grows by one `execute` subscription per registered queue, in order |
| `TasksQueue.Queue.SetQueues` | src/Queue.php:118-125 | the queues become the normalised raw names and the default is untouched |
| `TasksQueue.Queue.SetDefault` | src/Queue.php:139-143 | the default becomes the prefixed name and the queues are untouched |
| `TasksQueue.Queue.ValidateQueue` | src/Queue.php:159-163 | a registered prefixed name is returned as is and any other name resolves to the default, so the result is always registered when the default is |
| `TasksQueue.Queue.Schedule` | src/Queue.php:96-104 | an already pending (resolved queue, [job, args]) event gives `false` and leaves cron unchanged; otherwise the result is the insert's result, and cron gains exactly that event at `now` or stays unchanged |
| `TasksQueue.Singleton.SetInstance` | src/Queue.php:77-79 | the slot holds the given instance |
| `TasksQueue.Singleton.GetInstance` | src/Queue.php:63-72 | the first call builds a fresh Queue from the names plus the default and registers its subscriptions; later calls return the same Queue, with its queues, its default and the hook table unchanged; the default is always registered |
| `TasksQueue.Singleton.Add` | src/Queue.php:51-55 | schedules on the instance; when none exists, a fresh one is built from the default configuration and its `execute` subscriptions are appended to the hook table, otherwise the hook table is unchanged; the resolved queue is registered and the dedup rule of `Schedule` holds |

## Left out

- `execute` (src/Queue.php:85-87) is not modelled. It calls an arbitrary PHP callable with `call_user_func_array`, and the model has no job semantics, only job identities.
- `QueueNames.WithDefault`: models `in_array($default, $queues)` at src/Queue.php:65 with strict string equality. PHP's loose comparison treats numeric strings such as "1" and "01" as equal, so there the default can be skipped. Strict equality is an assumption of the model. The `in_array` in `validateQueue` compares two prefixed strings, which are never numeric, so strict equality is exact there.
- `WordPress.Cron.NextScheduled` answers whether an event is pending. It does not return the earliest timestamp as `wp_next_scheduled` does, because `schedule` only compares that result with `false`.
- `WordPress.Cron.ScheduleSingleEvent` does not model why WordPress refuses an event (its own ten-minute duplicate window, filters, persistence errors). The outcome is nondeterministic.
- `WordPress.Hooks` is an append-only log. WordPress's `add_action` does not add a second copy of an identical (hook, callback, priority) registration, and the log would. This cannot show here, because the queue registers distinct names only once each.
- `time()` is not read. The fire time is the parameter `now`.
- The fluent `return $this` of `setQueues` and `setDefault` is not modelled. The getters `getQueues` and `getDefault` are plain field reads.
- PHP array keys are not modelled. `array_unique` and `array_filter` keep the original keys, possibly with gaps. The model uses sequences in the same order, and only the order and the values are observable here.
- Queue names are strings. Non-string array elements, which `sprintf` would convert, are not modelled.
- Concurrency is not modelled: neither the check-then-insert race in `schedule` nor the race on first construction of the instance. Both are host concerns.
