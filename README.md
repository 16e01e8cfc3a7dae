# ManifestAutoUpdate bookkeeping core in Dafny

ManifestAutoUpdate keeps a git archive of Steam depot manifests. For every
configured account the engine `ManifestAutoUpdate` (main.py) does the following:

- it checks whether the account is due;
- it logs in, with backoff on rate limiting;
- it collects the apps of the account's paid packages;
- it takes a per-app lock and records the public manifest of every licensed depot;
- it queues a fetch job for each manifest version that has no tag yet;
- the completion handler of each job then tags the version, releases the depot from the lock and marks the app as owned.

A separate sweep, `update`, looks up the current manifests of every owned app in
chunks of 300. It then picks the users whose apps moved on.

This project models that bookkeeping in Dafny and proves what it guarantees.
Steam, the CDN client and the manifest fetches become their answers:

- a scripted outcome for the k-th attempt of each retried request;
- the result of each login;
- the value each fetch job ends with;
- the order in which the jobs finish.

The clock readings become parameters: `now` for the cooldown gate and `stamp` for the new update time. The output of each git command becomes a string.

Modules:

- `Wrappers`, `Collections`, `Text`: Option, duplicate-free lists, and the
  Python string operations the parsers use (`split`, `split()`,
  `isdecimal`, `int`, `lower`, `s[1:-1]`). `Text` also proves the round trip
  between `split` and `join`.
- `Steam`: login results and the shapes of the Steam replies (packages, apps, depots, CDN view, fetch results).
- `Retry`: the `retry` combinator, as a loop and as a reference function.
- `Login`: the login loop: relogin, password logins, rate-limit backoff, disqualifying results, and the interactive fallback, with `LoginVerdict` as a recursive reference for how it ends.
- `Records`: the user record, its defaults, and the due/disabled gate.
- `GitRefs`:
  - the version tag `{depot}_{gid}`;
  - the parsers of `ls-remote --tags`, `ls-remote --head` and `worktree list`, with round-trip lemmas;
  - the local branch query.
- `Scheduling`: the paid-app filter and the scheduling pass of `get_manifest` (depot step, app step, app list), as functions on values, with lemmas:
  - about the lock table;
  - about the queued jobs;
  - about the recorded manifests and the owned list.
- `Completion`: `get_manifest_callback` as a function on values and the effect of any sequence of completions.
- `Staleness`: the owned apps, the chunked product-info requests, and the stale apps and users of `update`.
- `Selection`: the start-up selection of users and app ids.
- `Updater`: the class `ManifestAutoUpdate` with its fields. Its methods change those fields in place. Each method is proved against the functions above:
  - `GetManifest` runs the gate, then `Login`, then `Session`, `ScheduleAndWait` and `FinishJobs`;
  - `Update` runs `StaleSweep`;
  - the cached git queries.

Two choices shape the model:

- **Dictionaries.** A Python dictionary whose iteration order matters is
  modelled as its sequence of items: the depots of an app and the packages
  of a reply. The other dictionaries become maps.
- **Fetch jobs.** The gevent jobs run after the scheduling pass, in an
  order chosen by the caller. Their callbacks run one after another.

Note on recorded manifests: main.py:549 records a depot's public manifest
in `app_info` while scheduling, before its fetch runs. A fetch that then
fails leaves the new manifest recorded anyway. The sweep in `update` therefore
treats that depot as current, so the missed version is not picked up again
until Steam publishes the next one. The model follows the code; it states
this in `Staleness.ScheduledDepotsNotStale`.

## Model

| member | source | states |
|---|---|---|
| Retry.Retry | main.py:309-318 | With a budget n ≥ 0 it makes at most n calls. Every call but the last timed out. It stops at the first value, which it returns, or at the first other exception, which gives None. With a non-negative budget the result equals `RetryFrom`. |
| Retry.RetryFromValue | main.py:309-318 | `retry` gives v iff, within the budget, some call returns v and every call before it timed out. |
| Login.LoopVerdictFacts | main.py:369-396 | From a state reached by rate-limited password logins, the loop runs at most `count` more iterations. Every password login but the last was rate limited, and the last one gives the result unless the interactive login decided. A non-rate-limited failure is kept to the end. A rate-limited final result means the whole budget went on rate-limited retries. The account is disabled iff the loop stopped on a disqualifying result with retries left. |
| Login.LoginVerdictFacts | main.py:345-396 | A successful relogin means no password login. Otherwise there are at most 1 + retry_num password logins, all rate limited but the last, which gives the result. In CLI mode, after one failed password login the interactive login decides, once. Disabled iff the result is disqualifying with retries left, outside CLI mode. A rate-limited result at the end means every retry was used. The loop otherwise ends on OK, disabling, the interactive login or an exhausted budget. |
| Login.RateLimitedThenOk | main.py:345-385 | A failed relogin, a rate-limited password login and a successful one give OK after two password logins and one retry. So there is one sleep of 1 second. |
| Login.RetryLogins | main.py:369-396 | The `while` loop ends as `LoopVerdict` says, and its sleeps are 1, 2, 3, … one per rate-limited retry. |
| Login.LoginAttempts | main.py:336-410 | The loop ends exactly as `LoginVerdict` says: final result, disabling, password and interactive login counts, and iterations. The sleeps are 1 after a rate-limited relogin, then 1, 2, 3, … one per rate-limited retry. It also states the properties of `LoginVerdictFacts` directly about its outputs. |
| Updater.ManifestAutoUpdate.Login | main.py:320-410 | The result and the disabling are those of `LoginVerdict` for the remote's answers, and the call count is 1 + its password and interactive logins. A disabled account gets `enable = False` and `status = result`, and no other record changes. A successful relogin means exactly one login call. At most 3 + retry_num calls in all. |
| Records.WithDefaults | main.py:428-441 | A missing user gets `app = []`, `update = 0`, `enable = True`. An existing record keeps every field it has, and only missing fields get their default. |
| Records.GateOf | main.py:442-451 | Disabled iff `enable` is false. Open iff enabled and `update + wait_time ≤ now`. Otherwise cooling down, with a positive remaining time. |
| Updater.ManifestAutoUpdate.CheckGate | main.py:428-451 | The user's record is replaced by its defaulted form, and the gate's verdict is taken on it. |
| Records.AppendIfAbsent | main.py:552-553 | `if x not in s: s.append(x)`: keeps `s` as a prefix, adds `x` at most once, and keeps the list free of duplicates. |
| Collections.ListOfSet | main.py:174 | `list(set(xs))`: the elements of the set once each. |
| Collections.Slice | main.py:622 | Python's clamped slice: empty past the end, non-empty when `lo` is inside and below `hi`, never longer than `hi - lo`. |
| Text.Lower | main.py:537 | `str.lower()` keeps the length and leaves no capital. Exactly the capitals change, each to the letter 32 code points above it. |
| Text.Inner | main.py:253 | `name[1:-1]` drops the first and last characters, or is empty for shorter strings. |
| Text.SplitOn | main.py:263-265 | `str.split(sep)` gives at least one piece, none containing the separator. |
| Text.JoinSplitOn | main.py:263-265 | Joining the pieces of a split gives the string back. |
| Text.SplitOnJoin | main.py:263-265 | Splitting a join of separator-free pieces gives the pieces back. |
| Text.Fields | main.py:252 | `str.split()` yields non-empty fields free of whitespace. |
| Text.FieldsCons | main.py:252 | A word followed by whitespace comes off as the first field. |
| GitRefs.TagNameInjective | main.py:287-291 | For decimal depot ids the tag `{depot}_{gid}` determines depot and manifest, so the dedup query cannot confuse two versions. |
| GitRefs.ManifestExists | main.py:287-291 | `check_manifest_exist`: true iff `{depot}_{gid}` is among the local or the remote tags. |
| GitRefs.ManifestExistsAfterTag | main.py:287-291 | Once the tag of one manifest of a decimal depot is added, the query is true for exactly that manifest, and its answer for every other decimal depot and manifest is unchanged. |
| GitRefs.ParsedCount | main.py:281-284 | The lines Python gets through are empty or tag lines, and the line after them is neither. |
| GitRefs.ParseRemoteTags | main.py:279-285 | Empty lines are skipped and the last `/`-component of each ref is collected. The loop stops at the first malformed line; the tags before it stay. `ok` iff every line parsed. |
| GitRefs.TagLineRoundTrip | main.py:281-283 | The line git prints for a tag parses back to that tag. |
| GitRefs.HeadMapLastWins | main.py:262-266 | A branch is in `head_dict` iff some line names it, and it maps to the commit of the last such line. |
| GitRefs.HeadLineRoundTrip | main.py:263-265 | A printed branch line parses to the part of the branch name before its first `/`, with its commit. |
| GitRefs.HeadLinePlainRoundTrip | main.py:263-265 | A branch name without `/` comes back whole. |
| GitRefs.ParseRemoteHeads | main.py:262-266 | Gives a dictionary iff every line parses, and then it is `HeadMap` of the lines. |
| GitRefs.WorktreeMapKeys | main.py:251-256 | The worktree dictionary holds exactly the decimal branch names some line shows. |
| GitRefs.WorktreeLineRoundTrip | main.py:252-256 | The line git prints for an app worktree parses back to its path, head and name. |
| GitRefs.GetAppWorktree | main.py:247-257 | Gives a dictionary iff every line has at least three fields, and then it is `WorktreeMap` of the lines. |
| GitRefs.HasBranch | main.py:273-277 | True iff some local branch has the name. |
| Updater.ManifestAutoUpdate.GetRemoteTags | main.py:279-285 | Cached tags are kept. Otherwise the tags of the lines before the first malformed one are stored. |
| Updater.ManifestAutoUpdate.GetRemoteHead | main.py:259-268 | A cached dictionary is returned unchanged. Otherwise the parsed dictionary is returned and cached; a parse that raises caches nothing. |
| Updater.ManifestAutoUpdate.CheckAppRepoRemote | main.py:270-271 | Answers whether the branch is among the remote heads, or None when reading them raises. |
| Scheduling.PaidAppsMembers | main.py:494-497 | An app id is collected iff some package with depots and a paid billing type lists it. |
| Scheduling.CollectPaidApps | main.py:494-497 | The loop builds `PaidApps`, package by package in order. |
| Scheduling.ScheduleDepotsLock | main.py:542-544 | After the depot loop the app's lock set holds its old depots plus every depot id of the app, and no other entry changes. |
| Scheduling.QueuedJobsMembers | main.py:546-565 | The queued jobs are for this app; each depot that qualifies has its job, and every job comes from such a depot. |
| Scheduling.ScheduleDepotsQueued | main.py:542-565 | The depot loop appends exactly `QueuedJobs` to the jobs already queued. |
| Scheduling.ScheduleDepotsJobs | main.py:542-565 | The depot loop keeps the old jobs in front and adds at most one job per depot. Each depot that qualifies gets its job, and every new job is for this app and comes from such a depot. |
| Scheduling.ScheduleDepotsAppInfo | main.py:546-549 | After the depot loop: every fetchable depot's public manifest is recorded; the records of other depots are unchanged; no record appears for an id outside the app's depots. |
| Scheduling.ScheduleDepotsOwned | main.py:551-553 | The app becomes owned iff some depot was fetchable, and the owned list stays free of duplicates. |
| Scheduling.ScheduleAppsAborted | main.py:524-534 | Once an app is missing from the reply, the rest of the list changes nothing. |
| Scheduling.ScheduleAppLock | main.py:524-575 | The app step on the lock table: an unselected or already locked app changes nothing, and other entries are untouched. Missing from the reply aborts the pass. A new entry that remains is a supported app's, holding exactly its depot ids. It is empty only for a supported app without `depots`, which skips the cleanup. |
| Scheduling.ScheduleAppJobs | main.py:524-566 | One app keeps the queued jobs in front and appends only its own jobs, and only when it was not locked before. Owned apps stay. |
| Scheduling.ScheduleAppsLockFrame | main.py:524-575 | The app pass keeps every lock entry held before it unchanged. New entries are only for listed apps. |
| Scheduling.ScheduleAppsJobsFrame | main.py:524-566 | The app pass keeps the queued jobs in front. Every new job belongs to a listed app that was not locked before. |
| Scheduling.ScheduleAppsOwnedFrame | main.py:551-553 | The app pass never drops an owned app and keeps the owned list free of duplicates. |
| Scheduling.ScheduleAppsFrame | main.py:524-575 | The three frame lemmas above together. |
| Updater.ManifestAutoUpdate.QueueDepot | main.py:543-566 | In place, one depot does what `DepotStep` says; `flag` turns false iff a job is queued. |
| Updater.ManifestAutoUpdate.QueueDepots | main.py:542-566 | In place, the depot loop does what `ScheduleDepots` says; only the user's owned list changes among the records. |
| Updater.ManifestAutoUpdate.QueueApp | main.py:524-575 | In place, one app does what `ScheduleApp` says, including the abort on a missing app. |
| Updater.ManifestAutoUpdate.QueueApps | main.py:520-576 | In place, the app loop does what `ScheduleApps` says. `flag` stays true iff no job was queued. |
| Completion.ReleaseDepot | main.py:222-229 | Removes exactly the depot from the app's set and pops the entry when it became empty. KeyError (None) iff the set lacks the depot. Other entries are untouched, and an app without an entry is left alone. |
| Completion.AfterFetchesLock | main.py:222-229 | Completions only shrink the lock table, and the entry of an app without a job stays as it was. |
| Completion.FetchedTagsReordered | main.py:582 | The tags added do not depend on the order in which the jobs finish. |
| Completion.AfterFetchesTags | main.py:207-216 | After the completions the tags are the old ones plus the tag of every job whose fetch succeeded. |
| Completion.AfterFetchesOwned | main.py:222-226 | Completions keep the owned list free of duplicates, never drop an app, and add only apps with a successful fetch. |
| Completion.AfterFetchesRecords | main.py:205 | A record appears only for a depot with a successful fetch. A depot's record is the manifest of its last successful job. |
| Updater.ManifestAutoUpdate.ManifestCallback | main.py:194-229 | In place, one callback does what `AfterFetch` says; a falsy result changes nothing. |
| Updater.ManifestAutoUpdate.CompleteJobs | main.py:194-229 | In place, the callbacks one after another do what `AfterFetches` says. |
| Updater.ManifestAutoUpdate.FinishJobs | main.py:582 | The callbacks run in the order the jobs finish. Lock entries of apps without jobs stay, the owned list only grows and stays free of duplicates, and the tags grow by those of the successful fetches. |
| Updater.PrepareApps | main.py:473-518 | The run stops for want of a CDN client iff its retries give nothing. When it goes on, it does so with the retry values and a non-empty paid list holding exactly the apps of the paid packages. It stops for want of paid apps only when there are no packages or no paid package lists an app. |
| Updater.ManifestAutoUpdate.ScheduleAndWait | main.py:520-582 | The state after the pass is `ScheduleApps`'s. A missing app ends the run there; otherwise the callbacks follow. The update time is set to the clock reading `stamp` iff no job was queued, and other records and the locks held before are kept. |
| Updater.ManifestAutoUpdate.Session | main.py:471-582 | The run ends where `Prepare` stops. Only an empty paid list changes anything: it disables the account with status OK. Otherwise the run schedules as `ScheduledRun` says. |
| Updater.ManifestAutoUpdate.GetManifest | main.py:428-582 | A disabled or cooling-down user is left with defaults and no login. With an open gate the login calls are those of `LoginVerdict`. The run fails at login iff the gate is open and the verdict is not OK; it then reports the verdict's result, and the account is disabled iff the verdict says so. After a successful login the run proceeds as `SessionRun` describes, with the second clock reading `stamp` as the new update time. |
| Updater.ManifestAutoUpdate.constructor | main.py:99-174 | A zero retry count or wait time falls back to 3 and 86400. The remote tags are read once: every line of a listing for which `__init__` does not raise contributes its tag. The selection follows `SelectUpdates`. |
| Selection.SelectAppIds | main.py:168 | The decimal arguments of `-a`, as numbers, once each. |
| Selection.SelectUpdates | main.py:165-174 | The users are those named plus, when app ids were given, every enabled user owning one of them, without duplicates. The app ids are exactly the decimal arguments. |
| Staleness.OwnedApps | main.py:597-604 | The apps owned by enabled users, once each, so the list is as long as that set. |
| Staleness.MergeResponsesKeys | main.py:627-630 | An app is collected iff some reply that arrived lists it with non-empty depots. |
| Staleness.FetchAppInfo | main.py:618-631 | The chunks are the successive slices of 300 and cover the list exactly. All but the last are full, and there are ceil(N/300) of them. The c-th reply is what `retry` gives for the c-th request (`Replies`), and so is a value one of its attempts returned. The collected apps are `MergeResponses` of the replies. |
| Staleness.ChunkCount | main.py:619-625 | When the loop stops, every chunk but the last holds exactly 300 ids, and a list of N ids gives ceil(N/300) chunks. |
| Staleness.MergeReply | main.py:627-630 | One reply's apps with non-empty depots overwrite their entries. Other entries stay. |
| Staleness.FetchedFromReplies | main.py:621-630 | Every collected app comes, with its depots, from a value an attempt of its chunk's request returned. |
| Staleness.MergeResponsesLast | main.py:627-630 | An app collected takes the depots of the last reply that lists it with non-empty depots. |
| Staleness.ChangedManifestIsStale | main.py:627-642 | Completeness: an app whose last listing has a decimal depot whose non-empty public manifest differs from the recorded one is collected and stale. |
| Staleness.StaleApps | main.py:633-642 | The stale apps are exactly those with a decimal depot whose non-empty public manifest is recorded with a different value. |
| Staleness.UnknownOrCurrentNotStale | main.py:641 | A depot missing from `app_info`, or recorded with its public manifest, never makes an app stale. |
| Staleness.ScheduledDepotsNotStale | main.py:546-549 | A depot that scheduling recorded is not stale for the sweep, even if its fetch later fails. |
| Staleness.UsersToUpdate | main.py:644-664 | The users are the enabled owners of stale apps plus every account without a record. |
| Updater.ManifestAutoUpdate.StaleSweep | main.py:595-642 | The sweep is `SweepRun`. The owned apps of the enabled users go out in chunks of 300, once each. All chunks but the last are full, so N apps take ceil(N/300) requests. What is collected is `MergeResponses` of each chunk's retried request, and so every collected app comes from a reply. The stale set is the collected apps with a stale depot. |
| Updater.ManifestAutoUpdate.Update | main.py:595-672 | The sweep is `SweepRun`, as in `StaleSweep`: chunks of 300 covering the enabled users' apps, ceil(N/300) of them. Then come the merged retried replies and the stale apps among them. `update_user_list` keeps its old entries in front and gains, once each, exactly the enabled owners of stale apps and the accounts without a record. It is then returned. |

## Left out

- Git and git-crypt: repository setup, worktrees, branches, commits, `init_app_repo` and the git-crypt download (main.py:107-158, 176-192, 293-307). A tag creation is an insertion into `localTags`, and git never fails in the model, so the error path of main.py:219-220 does not arise.
- Network and Steam: the Steam and CDN clients, `anonymous_login` and TOTP generation are inputs (`Remote`, outcome functions). Sentry paths and credential locations are not modelled.
- Concurrency: greenlets, `joinall` and the thread lock (main.py:23, 562-582). Jobs start after their app's depot loop and may finish while later apps are scheduled; the model runs all callbacks after the pass, in the order `finish` gives.
- Updater.ManifestAutoUpdate.ScheduleAndWait: when an app is missing from the reply, the jobs already started would still finish later. The model runs no callback on that path.
- I/O: `MyJson` load and dump, `save`, logging, argparse, `push`/`push_data` and the sleeps. Sleeps are recorded as a list in `Login.LoginAttempts`.
- Retry.Retry: an exception outside `Exception`, such as `KeyboardInterrupt` or `SystemExit`, passes through `retry` at main.py:316. The model has no such outcome.
- Time: `time.time()` is a float; the model takes its two readings in `get_manifest` as integers, `now` for the gate (main.py:448) and `stamp` for the new update time (main.py:579). Nothing relates them, as the wall clock need not be monotonic.
- The `run` driver called at main.py:679 is not defined in main.py and is not part of this model, and neither is the pool size.
- `update_app_user` (main.py:644-657, 667-668) only feeds logging.
- Lock leaks: no theorem says the lock table ends up empty, because the code does not guarantee it. The model shows the three leaks:
  - depots that are skipped at main.py:546 or 555-557 stay in their set;
  - a failed fetch returns before the unlock (main.py:196-198);
  - the `continue` at main.py:538-539 skips the cleanup.
- Updater.ManifestAutoUpdate.constructor: a tag line of `ls-remote --tags` that does not split into two fields makes `__init__` raise (main.py:164, 282). The constructor requires a listing without such a line, as Python then builds no object.
- Updater.ManifestAutoUpdate.constructor: `retry_num` is a natural number. With a negative `-r` the login loop of main.py:369 would not end on a non-rate-limited failure. `Retry.Retry` itself accepts negative budgets.
- Selection.SelectUpdates requires every record to carry `enable`, where Python raises KeyError; so do Staleness.OwnedApps and Staleness.UsersToUpdate.
- Scheduling.Licensed reads a depot id as a number only when every character is an ASCII digit. A non-decimal id that `int()` rejects raises ValueError at main.py:547. An id that `int()` accepts but that is not all digits is also treated as unlicensed, such as " 12", "+12" or "-5".
- An app whose `common` lacks `type` raises KeyError at main.py:537. The model treats it like an app without `common` (`kind` is None).
- Updater.Prepare: a reply counts as present whenever a call returns a value. A value that Python finds falsy (an empty dictionary) makes main.py:477, 489 and 516 stop the run; the model has no such value.
- String operations cover ASCII only. Unicode whitespace and decimal digits outside ASCII are not modelled.
- main.py as written does not parse: `login` is indented by three spaces, and `get_manifest` and `update` sit inside it. The model gives each its evident meaning as a method of the class.
