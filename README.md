# check_haproxy_state: a Dafny model of the health check

`check_haproxy_state.py` is a Nagios-style plugin. It asks HAProxy's admin
sockets for the status of every backend or frontend. It sorts those statuses
into down, up and "other", and it exits with one code: OK 0, ERROR 2 or
UNKNOWN -1, taken from its `SIGNALS` table. This project models the
plugin's pipeline as the code runs it:

1. **Arguments.** `--sockets_path` and `--section_type` must both be given.
   The section type must be `backends` or `frontends`. Otherwise the exit is ERROR.
2. **Fetch.** `_getBackends` / `_getFrontends` loop over the client's
   records and build a dict from name to status. They skip names that contain
   `stats`, and a later record for a name overwrites an earlier one. A client
   exception makes the helper return `False`. `main` exits UNKNOWN for that
   `False` and for an empty dict alike.
3. **Exclude.** The dict comprehension keeps a name only when it is not a
   substring of the raw exclusion string. The `split(",")` result is thrown
   away, so the string is never turned into a list.
4. **Bucket.** The loop sends each entry to down, up (`UP` for backends,
   `OPEN` for frontends) or other. For frontends, an "other" status calls
   `append` on a dict. That raises, and the generic handler exits ERROR.
5. **Reduce.** Three `raise` checks, the `except` ladder and the `finally`
   clause give the exit. When both down and other are non-empty, the UNKNOWN
   exit of the other-handler is replaced by the `finally` clause's ERROR,
   which reports both dicts. When every bucket is empty nothing is raised,
   and `main` returns with status 0 and no message.

Modules:

- `PyStrings` (PyStrings.dfy): Python's `in` on two strings, as a left-to-right
  scan `Occurs`, proved equal to "some start position holds the needle".
- `CheckHaproxyState` (CheckHaproxyState.dfy): the records, the client's
  possible answers and the `Verdict` of a run. The fetch loop is the method
  `FetchStatuses`, proved against the function `Collected`. The exclusion is
  the function `Exclude`. The bucketing loop is the method `Bucket`, proved
  against the function `Classify`. The exception chain is the functions
  `RaisedBy`, `Handler` and `Reduce`. `main` is the method `CheckState`,
  proved equal to the function `Outcome` of its inputs. Lemmas state the
  precedence of verdicts and the quirks listed above.

Where the plugin's evident intent and its code differ, the model follows the
code. The intent shows in the code itself: the `except` clauses at
check_haproxy_state.py:141-143 and :152-154 that would exit ERROR on a failed
fetch, the `split(",")` call at :47 whose list is thrown away, and the
"UNKNOW status" message at :198 written for states other than DOWN and UP:

- Exclusion is by substring, not by exact name. With `web10,api`
  configured, `web1` and `b10,a` are excluded too (`ExcludeIsBySubstring`).
- A failed fetch ends UNKNOWN, not ERROR (`FetchFailureIsUnknown`).
- A frontend whose status is neither `DOWN` nor `OPEN` ends ERROR, not
  UNKNOWN (`FrontendReduce`, `ScenarioFrontendInMaintenance`).
- A run in which every fetched name is excluded ends with status 0 and no
  message, not UNKNOWN (`AllExcludedReturns`).

## Model

| member | source | states |
|---|---|---|
| `CheckHaproxyState.ExitCode` | check_haproxy_state.py:26-31 | Every verdict exits with the SIGNALS value of UNKNOWN, OK or ERROR, never WARNING. The exit is 0 exactly for the all-up handler and a normal return of `main`. It is UNKNOWN exactly for a failed or empty fetch and for the other-handler. The exit 0 of `-h`, `--help` and `--version` inside `parse_args` is not a verdict (see Left out). |
| `CheckHaproxyState.ParseArguments` | check_haproxy_state.py:111-125 | A section is accepted iff the sockets path is given and non-empty and the section type is exactly `backends` or `frontends`. That type decides the section. |
| `CheckHaproxyState.BadArgumentsBeforeFetch` | check_haproxy_state.py:112-125 | A missing or empty option or a bad section type ends the run with ERROR, whatever the socket client would answer. |
| `CheckHaproxyState.CollectedContents` | check_haproxy_state.py:74-78 | The fetched dict holds exactly the record names that do not contain `stats`. Each name maps to the status of its last record. |
| `CheckHaproxyState.CollectedOtherMetric` | check_haproxy_state.py:76-77 | With a metric type other than `status` the helper's dict stays empty. |
| `CheckHaproxyState.FetchStatuses` | check_haproxy_state.py:71-93 | The helper returns `None` (the `False`) exactly when the client raises. Otherwise it returns the dict its loop builds, which `CollectedContents` describes. |
| `CheckHaproxyState.FetchFailureIsUnknown` | check_haproxy_state.py:134-154 | A raising client, like a listing with only `stats` names, ends the run with UNKNOWN (-1), not ERROR. |
| `CheckHaproxyState.Exclude` | check_haproxy_state.py:156-163 | The filtered dict is a sub-dict of the fetched one. A fetched name is dropped iff it is a substring of the raw exclusion string. |
| `CheckHaproxyState.ExcludeNothingConfigured` | check_haproxy_state.py:49-53 | With the default exclusion `""`, exactly the empty name is dropped. |
| `CheckHaproxyState.ListedNameExcluded` | check_haproxy_state.py:157-163 | Every name written in the exclusion string is dropped, whatever text surrounds it. |
| `CheckHaproxyState.ExcludeIsBySubstring` | check_haproxy_state.py:43-47 | Because the split list is discarded, `web10,api` also drops the unlisted names `web1` and `b10,a` and keeps `db`. |
| `PyStrings.OccursIffSomePosition` | check_haproxy_state.py:75 | Python's `needle in haystack` holds iff some start position of the haystack holds the needle. |
| `PyStrings.EmptyString` | check_haproxy_state.py:158 | `"" in s` holds for every `s`. `n in ""` holds only for `n == ""`. |
| `CheckHaproxyState.ClassifyPartitions` | check_haproxy_state.py:179-185 | When the loop finishes, down, up and other are pairwise disjoint and their union is the filtered dict. Each bucket holds exactly the entries with its status (`DOWN`, the healthy token, anything else). |
| `CheckHaproxyState.FrontendOtherRaises` | check_haproxy_state.py:170-177 | The frontend loop raises iff some status is neither `DOWN` nor `OPEN`. When it does not raise, the other dict is empty. |
| `CheckHaproxyState.Bucket` | check_haproxy_state.py:165-185 | The bucketing loop returns exactly `Classify` of the section and the filtered dict: the three buckets, or the `append` failure. |
| `CheckHaproxyState.ReducePrecedence` | check_haproxy_state.py:187-212 | The append failure gives ERROR. Down only gives ERROR reporting the down dict. Other only gives UNKNOWN reporting the other dict. Both give ERROR reporting their union. Up only gives OK with the up count. All empty gives a normal return with status 0. |
| `CheckHaproxyState.FinallyOverridesUnknown` | check_haproxy_state.py:189-210 | With both down and other non-empty, the other-exception is raised and its handler asks for UNKNOWN. The `finally` clause makes the exit ERROR and reports all entries of both dicts. |
| `CheckHaproxyState.OutcomeOfListing` | check_haproxy_state.py:134-212 | Once the options are accepted and the fetch is non-empty, the run ends with the verdict chain applied to the buckets of the filtered dict. |
| `CheckHaproxyState.BackendReduce` | check_haproxy_state.py:179-212 | For backends, the verdict follows from the DOWN, UP and other entries of the filtered dict by the precedence above. |
| `CheckHaproxyState.BackendVerdicts` | check_haproxy_state.py:134-212 | A backend run whose fetch is non-empty gets the verdict of `BackendReduce` on the filtered dict. |
| `CheckHaproxyState.FrontendReduce` | check_haproxy_state.py:170-205 | For frontends, a status other than `DOWN`/`OPEN` gives ERROR through the generic handler. Some `DOWN` with every status `DOWN` or `OPEN` gives ERROR reporting exactly the `DOWN` entries. All `OPEN` gives OK with their count. |
| `CheckHaproxyState.FrontendVerdicts` | check_haproxy_state.py:145-205 | A frontend run whose fetch is non-empty gets the verdict of `FrontendReduce` on the filtered dict. |
| `CheckHaproxyState.AllExcludedReturns` | check_haproxy_state.py:156-212 | If the fetch holds a real service but every record name is excluded, the run raises nothing and ends with status 0. |
| `CheckHaproxyState.CheckState` | check_haproxy_state.py:111-212 | `main` validates, connects, fetches, excludes, buckets and reduces in the script's order. Its result equals `Outcome` of its inputs. |
| `CheckHaproxyState.OneBackendDown` | check_haproxy_state.py:179-196 | With one backend UP and another DOWN, neither excluded and neither naming `stats`, the run ends with ERROR reporting exactly the DOWN one. |
| `CheckHaproxyState.ScenarioFrontendInMaintenance` | check_haproxy_state.py:170-205 | Frontends `fe1` OPEN and `fe2` MAINT end with ERROR through the generic handler. |

## Left out

- Logging setup and output (check_haproxy_state.py:13-24): console and syslog I/O. A `Verdict` constructor names which message the run logs. The text is not modelled.
- Reading `/etc/haproxy-status.ini` (check_haproxy_state.py:33-53, including `AttrConfig`): file I/O. The resulting exclusion string is a parameter. It is the raw `applications` value, or `""` when the file, section or key is missing or empty.
- The `haproxyadmin` client (check_haproxy_state.py:9, 128-132, and the `backends()` / `frontends()` calls): a foreign library over UNIX sockets. The `Client` datatype says what it answers: it cannot be created, its listing raises, or it lists records. An exception raised partway through the helper's loop also returns `False`, so it is the same as a raising listing.
- `optparse` help, usage and version printing (check_haproxy_state.py:97-109). `-h`, `--help` and `--version` make `parse_args` print and exit 0 before the checks at line 112. No `Verdict` stands for that exit, so `ExitCode` speaks only of runs that get past `parse_args`. An unknown option makes `parse_args` exit 2 before the checks, which is not modelled either.
- Unreachable code: lines 115-118 and the `except` clauses at lines 141-143 and 152-154. The fetch helpers catch every exception themselves, and `sys.exit` raises `SystemExit`, which `except Exception` does not catch. None of these lines has a model.
- Process exit: `SystemExit` and `sys.exit` become a returned `Verdict`. The exit code is the SIGNALS value. The operating system reports `-1` as 255, which is not modelled.
- Dict iteration order: `Bucket` takes the keys of the filtered dict in any order, not insertion order. No exit and no reported dict depends on the order. The down and up entries gathered before a frontend `append` failure are not kept, because nothing reads them after that failure.
