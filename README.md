# Job scheduler: job-descriptor merge and version-diff scheduling

This project models the decision logic of `scheduler.py` in Dafny and proves
properties of it. The scheduler queues mobile-app analysis jobs on a backend.
It takes bundle ids from four sources: a single bundle id, an App Store
numeric id, an iTunes RSS feed, or a diff of a search index against the live
App Store.

- `values.dfy` (module `Values`) holds the values of a job descriptor:
  `Value = Str | Dict`, dictionaries keyed by strings. It also has paths into
  nested dictionaries (`At`) and Python truthiness of optional arguments.
- `merge.dfy` (module `Merging`) models `dict_merge` as a method, `DictMerge`.
  The method walks the override's keys in an arbitrary order. It recurses
  where the base holds a dictionary and overwrites everywhere else. It is
  proved equal to the recursive specification `Merge`, so the result does not
  depend on the order of the keys. Python raises an `AttributeError` when the
  base holds a dictionary and the override a scalar at the same key. The model
  returns this as the `AttributeError` outcome, and `Mergeable` says exactly
  when it cannot happen. The lemmas cover four things. Every scalar the
  override holds wins at its path. Base values survive wherever the override
  is silent. Every scalar of the result comes from the override or the base.
  Merging twice equals merging once.
- `jobs.dfy` (module `Jobs`) holds the two default descriptors and
  `schedule_job`'s choice between them. Only `'dioscope'` picks the dioscope
  template; every other string, unknown ones included, picks the run template.
  The module also models `schedule_bundleId`, which builds the override step by
  step and puts each optional argument in only when it is truthy.
- `sources.dfy` (module `Sources`) models the three loops and checks around
  `schedule_bundleId`:
  - `schedule_appId` needs exactly one lookup result.
  - `schedule_itunes` posts one job per feed entry. Its result is the
    conjunction of the backend's answers.
  - `schedule_dioscope_new` is the version diff. A failed lookup stops the run
    with False. An app the store does not know is skipped. A strictly later
    store release date is counted and posted as a dioscope job. A rejected post
    makes the result False but does not stop the loop.

The collaborators are parameters:
- Each HTTP answer is an injected value: `AppLookup`, `Feed`, or `Lookup` for
  the i-th catalog entry, given as `live(i)`.
- The index query is the `catalog` sequence.
- The truthiness of the job id that `Backend.post_job` returns is `accepted`.
  In the loops, `accepted(j)` is the answer to the j-th post.
- Release dates are integer timestamps.

The methods also return what the source only does as side effects:
- the descriptors handed to the backend (`posted`);
- the number of lookups made (`looked`);
- the diff's `count`, which the source only logs.

The model keeps these behaviours of the code as written:
- Optional arguments are dropped by truthiness, not by presence. An empty
  string is left out just like `None`.
- `schedule_appId` and `schedule_itunes` pass `executionStrategy=None` whatever
  the caller supplied. `ScheduleAppId` states that the descriptor then has no
  `executionStrategy`. Only the diff passes the strategy on.
- The merge's recursion test looks only at the base side. A scalar override
  over a base dictionary is an error, not a replacement.
- `schedule_dioscope_new` returns only the overall flag. `count` is an extra
  output of the model.

## Model

| member | source | states |
|---|---|---|
| `Merging.Mergeable` | scheduler.py:19-20 | defines when `dict_merge` does not raise: the override is a dictionary, and wherever the base holds a dictionary at one of its keys, the override's value there can in turn be merged into it |
| `Merging.Merge` | scheduler.py:16-23 | defines the merged dictionary: every key of either side; the base's value where the override has no key; a recursive merge where the base holds a dictionary; the override's value otherwise |
| `Merging.DictMerge` | scheduler.py:16-23 | succeeds exactly when `Mergeable` holds and otherwise ends in the AttributeError; the result is `Merge(first, second)` whatever order the keys are visited in; its keys are the union of both key sets; a key only in `first` keeps its value; a key of `second` where `first` holds no dictionary takes the override's value |
| `Merging.MergeStep` | scheduler.py:18-22 | handling one more override key changes the merged dictionary at that key alone: a recursive merge where the base holds a dictionary, the override's value otherwise |
| `Merging.MergeTopLevel` | scheduler.py:18-23 | one level of the merge: key set is the union; base-only keys keep their value; the override's value where the base holds no dictionary; where it holds one, the override also holds one, the two are merged, and nested keys the override does not mention survive |
| `Merging.MergeOverrideWins` | scheduler.py:18-22 | every scalar the override holds at any path is what the merged dictionary holds at that path |
| `Merging.MergeBaseSurvives` | scheduler.py:18-23 | every path the override does not reach keeps the base's value in the merged dictionary |
| `Merging.MergeLeafOrigin` | scheduler.py:18-23 | every scalar of the merged dictionary comes from the override at that path, or from the base where the override reaches nothing |
| `Merging.MergeFailsExactlyOnConflict` | scheduler.py:19-20 | the merge fails exactly when some path holds a dictionary in the base and a scalar in the override (both directions) |
| `Merging.NoConflictWhenMergeable` | scheduler.py:19-20 | a merge that succeeds never met a base dictionary facing an override scalar |
| `Merging.MergeSelf` | scheduler.py:16-23 | merging a dictionary into itself succeeds and leaves it unchanged |
| `Merging.MergeableAfterMerge` | scheduler.py:16-23 | the merged dictionary can take the same override again without error |
| `Merging.MergeIdempotent` | scheduler.py:16-23 | applying the same override twice gives the same dictionary as applying it once |
| `Merging.MergeEmptyOverride` | scheduler.py:18-23 | an empty override leaves the base unchanged, so `schedule_job` with `{}` posts the template itself |
| `Jobs.DefaultRunJob` | scheduler.py:39-46 | defines the run template: type `run_app`, state `pending`, `jobInfo` holding the App Store app type |
| `Jobs.DefaultDioscopeJob` | scheduler.py:49-56 | defines the dioscope template: type `dioscope`, state `pending`, `jobInfo` holding the App Store app type |
| `Jobs.DefaultJob` | scheduler.py:62-65 | defines the template choice: the dioscope template for the kind `'dioscope'`, the run template for any other kind |
| `Jobs.DefaultJobShape` | scheduler.py:39-65 | only the kind `'dioscope'` selects the dioscope template and any other kind gives the run template, the same as `'run'`; both templates are pending, have the App Store app type, and hold nothing else |
| `Jobs.DefaultsSurvive` | scheduler.py:61-66 | after the merge, the kind's type, the pending state and the App Store app type remain wherever the override does not set those paths |
| `Jobs.ScheduleJob` | scheduler.py:61-68 | posts `Merge(template, jobDict)` exactly when the merge cannot fail; type, state and app type keep the template's values unless the override sets them; reports success exactly when a descriptor was posted and the backend accepted it |
| `Values.Truthy` | scheduler.py:76-79 | defines Python truthiness of an optional worker or device: `None`, `''` and `{}` are false, anything else is true |
| `Values.TruthyStr` | scheduler.py:80-85 | defines Python truthiness of an optional string argument: `None` and `''` are false |
| `Jobs.JobInfoOverride` | scheduler.py:72-86 | defines the `jobInfo` part of the override: the bundle id, then the account, store country and execution strategy each only when truthy |
| `Jobs.Override` | scheduler.py:71-79 | defines the override `schedule_bundleId` builds: the worker and device each only when truthy, and the `jobInfo` part |
| `Jobs.JobInfoOverrideShape` | scheduler.py:72-86 | the `jobInfo` override always holds the bundle id; account, store country and execution strategy are present exactly when truthy, and then hold the argument |
| `Jobs.OverrideShape` | scheduler.py:71-79 | the override always has `jobInfo`; worker and device are present exactly when truthy, and then hold the argument; no other key |
| `Jobs.OverrideMergeable` | scheduler.py:71-87 | an override shaped like `schedule_bundleId`'s never makes the merge fail |
| `Jobs.MergeBundleOverride` | scheduler.py:61-66 | merging such an override keeps the template's type and state, adds worker and device unchanged, and merges `jobInfo` |
| `Jobs.MergeInfoOverride` | scheduler.py:43-44 | merging a `jobInfo` override into the template's `jobInfo` adds only the App Store app type |
| `Jobs.BundleJob` | scheduler.py:71-87 | defines the descriptor `schedule_bundleId` posts: the kind's template with the override merged in |
| `Jobs.BundleJobTopLevel` | scheduler.py:71-87 | a posted descriptor has the kind's type, the pending state and `jobInfo`, plus worker and device exactly when they are truthy; nothing else |
| `Jobs.BundleJobInfo` | scheduler.py:71-87 | a posted descriptor's `jobInfo` holds the App Store app type and the bundle id, plus account, store country and execution strategy exactly when they are truthy; nothing else |
| `Jobs.BundleJobInfoMerged` | scheduler.py:61-66 | a posted descriptor's `jobInfo` is the templates' `jobInfo` with the `jobInfo` override merged in, and that merge cannot fail |
| `Jobs.MergedJobInfo` | scheduler.py:72-86 | that merged `jobInfo` holds the App Store app type and the bundle id, plus account, store country and execution strategy exactly when truthy; nothing else |
| `Jobs.BuildOverride` | scheduler.py:72-86 | the step-by-step construction yields exactly `Override`'s dictionary |
| `Jobs.ScheduleBundleId` | scheduler.py:71-87 | posts `BundleJob` for its arguments (the merge cannot fail) and reports the backend's answer |
| `Sources.ScheduleAppId` | scheduler.py:90-102 | posts only when the lookup succeeded with exactly one result; the run descriptor then has that bundle id and no execution strategy; success exactly when it posted and the backend accepted |
| `Sources.ScheduleItunes` | scheduler.py:106-119 | a failed feed request posts nothing and returns False; otherwise one run descriptor per entry, in order, without an execution strategy; success is the conjunction of all the backend's answers, and a rejection does not stop the loop |
| `Sources.FirstTransport` | scheduler.py:133-136 | the first index whose lookup failed at the transport level: no earlier one failed; `n` when none did |
| `Sources.StopStep` | scheduler.py:133-136 | a record whose lookup failed is where the diff stops; after any other record the stopping point lies further on |
| `Sources.Newer` | scheduler.py:138-146 | defines when a record warrants a job: the store found its app, with a release date strictly later than the indexed one |
| `Sources.Warranted` | scheduler.py:145-146 | no more warranted indices than records examined, each the index of one of those records |
| `Sources.WarrantedExactly` | scheduler.py:138-146 | an entry is warranted exactly when the store found its app with a strictly later release date (equal dates schedule nothing); the indices come in catalog order, each once |
| `Sources.WarrantedCount` | scheduler.py:145-146 | the number of scheduled jobs is the number of entries with a strictly newer store release |
| `Sources.WarrantedIdsAt` | scheduler.py:145-146 | the bundle ids the diff schedules are those of the warranted entries, position by position |
| `Sources.WarrantedPrefix` | scheduler.py:133-136 | which of the first n records are warranted does not depend on the records from k on, for any k at or beyond n |
| `Sources.DioscopeJob` | scheduler.py:149 | defines the descriptor the diff posts for a bundle id: `schedule_bundleId` with kind `'dioscope'`, no worker or device, and the account, country and execution strategy passed on |
| `Sources.ScheduleDioscopeNew` | scheduler.py:121-153 | lookups stop right after the first transport error, or cover every entry; count = posts = warranted entries before that point; the j-th post is the dioscope descriptor of the j-th warranted entry, with the execution strategy passed on; the result is True exactly when no lookup failed and every post was accepted |

## Left out

- HTTP requests, status codes and `json.loads` (scheduler.py:91-97, 108-114, 132-137) are replaced by the injected outcomes `AppLookup`, `Feed` and `Lookup`. Malformed JSON bodies and missing fields (Python's KeyError) are not modelled. The transport outcomes stand only for a non-200 status. A request that raises (a connection error or timeout at scheduler.py:92, 108 or 133) is not modelled. In Python that exception leaves the method instead of returning False, and jobs already posted stay posted.
- The Elasticsearch query (scheduler.py:122-124) is the `catalog` sequence. Its `size=1000` is the precondition `|catalog| <= MaxHits`.
- `dateutil.parser.parse` (scheduler.py:131, 143) is replaced by integer timestamps. Comparing naive with timezone-aware dates, which Python rejects, is not modelled.
- `Backend.post_job` and the `Backend` object made in `__init__` (scheduler.py:58-59, 67) are foreign. Only the truthiness of the returned job id is modelled, as `accepted`. The job id itself is not modelled.
- Logging, `argparse` and `main` (scheduler.py:152, 157-224) are command-line plumbing.
- Values other than strings and dictionaries (numbers, lists, `None`) are not modelled. In the merge they would behave like `Str`: they are deep-copied over the base.
- When `dict_merge` raises, Python has already updated some keys of the base in place. The model returns only the `AttributeError` outcome. The source's only caller throws the partly merged template away as the exception propagates.
- `schedule_job` raises rather than returning False when the merge fails. The model reports that case as "nothing posted, not ok". `ScheduleBundleId` shows it cannot happen for the overrides the scheduler builds.
- Worker and device objects are opaque `Value`s. Their truthiness is taken as that of a string or dictionary.
