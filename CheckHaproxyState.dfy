/** The health check of check_haproxy_state.py: fetch the `(name, status)`
    records of HAProxy's backends or frontends, drop the internal "stats"
    listeners, drop the excluded names, sort the rest into down, up and other
    buckets, and reduce the buckets to one exit code through the script's
    chain of raised exceptions, `except` handlers and `finally` override.

    The socket client, the configuration file, logging and process exit are
    not modelled: the client's answer and the exclusion string are parameters,
    and the exit the script would take is returned as a `Verdict`. */
module CheckHaproxyState {
  import opened PyStrings

  datatype Option<+T> = None | Some(value: T)

  // ---------------------------------------------------------------------
  // Exit codes

  /** The keys of the script's SIGNALS table. */
  datatype Signal = Unknown | Ok | Warning | Error

  /** `int(SIGNALS[s])`: the exit code each signal stands for. */
  function Code(s: Signal): int
  {
    match s
    case Unknown => -1
    case Ok => 0
    case Warning => 1
    case Error => 2
  }

  /** How one run of the script ends, with what it reports. */
  datatype Verdict =
    | BadArguments                            // a missing option or a bad section type
    | ConnectFailed                           // the socket client could not be created
    | FetchFailed                             // the fetch helper caught a client exception and returned False
    | NothingFetched                          // the fetch helper returned an empty dict
    | SomeDown(down: map<string, string>)     // ExceptionDownBackend handler
    | SomeOther(other: map<string, string>)   // ExceptionOtherBackend handler
    | AllUp(count: nat)                       // ExceptionUpBackend handler
    | ProcessingFailed                        // the generic `except Exception` handler
    | DownOrOther(failing: map<string, string>) // the `finally` override
    | Returned                                // nothing raised: `main` returns normally

  /** The exit status of the process for verdict `v`. */
  function ExitCode(v: Verdict): (code: int)
    ensures code in {Code(Unknown), Code(Ok), Code(Error)}
    ensures code != Code(Warning)
    ensures code == Code(Ok) <==> v.AllUp? || v.Returned?
    ensures code == Code(Unknown) <==> v.FetchFailed? || v.NothingFetched? || v.SomeOther?
  {
    match v
    case BadArguments => Code(Error)
    case ConnectFailed => Code(Error)
    case FetchFailed => Code(Unknown)
    case NothingFetched => Code(Unknown)
    case SomeDown(_) => Code(Error)
    case SomeOther(_) => Code(Unknown)
    case AllUp(_) => Code(Ok)
    case ProcessingFailed => Code(Error)
    case DownOrOther(_) => Code(Error)
    case Returned => Code(Ok)
  }

  // ---------------------------------------------------------------------
  // Arguments

  /** The two values `--section_type` may take. */
  datatype Section = Backends | Frontends

  /** Python truthiness of an optional string option: given and not empty. */
  predicate Given(opt: Option<string>)
  {
    opt.Some? && opt.value != ""
  }

  /** The argument check: both options must be given, and the section type
      must be "backends" or "frontends"; otherwise the script exits with
      ERROR before it touches the sockets. */
  function ParseArguments(socketsPath: Option<string>, sectionType: Option<string>): (r: Option<Section>)
    ensures r == Some(Backends) <==> Given(socketsPath) && sectionType == Some("backends")
    ensures r == Some(Frontends) <==> Given(socketsPath) && sectionType == Some("frontends")
  {
    if !Given(socketsPath) || !Given(sectionType) then None
    else if sectionType.value == "backends" then Some(Backends)
    else if sectionType.value == "frontends" then Some(Frontends)
    else None
  }

  // ---------------------------------------------------------------------
  // Fetch

  /** One object of the client's `backends()` or `frontends()` list. */
  datatype Record = Record(name: string, status: string)

  /** What the socket client does when asked: it cannot be created, or its
      listing call raises, or it lists the records of the chosen section. */
  datatype Client = CannotConnect | ListingRaises | Lists(records: seq<Record>)

  /** The name of HAProxy's internal statistics listener, never checked. */
  const StatsName := "stats"

  /** The only metric the fetch helpers record. */
  const StatusMetric := "status"

  /** The dict the fetch helpers' loop builds from `records`, one record after
      the other: records naming "stats" are skipped, and a later record for a
      name overwrites an earlier one. */
  function Collected(metricType: string, records: seq<Record>): map<string, string>
    decreases |records|
  {
    if records == [] then map[]
    else
      var m := Collected(metricType, records[..|records| - 1]);
      var r := records[|records| - 1];
      if !Occurs(StatsName, r.name) && metricType == StatusMetric then m[r.name := r.status] else m
  }

  /** `i` is the last index of `records` that names `name`. */
  predicate LastFor(records: seq<Record>, name: string, i: int)
  {
    0 <= i < |records| && records[i].name == name
    && forall j :: i < j < |records| ==> records[j].name != name
  }

  /** The fetched dict holds exactly the names of the records that do not
      contain "stats", each with the status of its last record. */
  lemma {:induction false} CollectedContents(records: seq<Record>)
    ensures forall k :: k in Collected(StatusMetric, records) <==>
      !Occurs(StatsName, k) && exists i :: 0 <= i < |records| && records[i].name == k
    ensures forall k, i :: LastFor(records, k, i) && !Occurs(StatsName, k) ==>
      k in Collected(StatusMetric, records) && Collected(StatusMetric, records)[k] == records[i].status
    decreases |records|
  {
    if records != [] {
      var n := |records| - 1;
      var front := records[..n];
      CollectedContents(front);
      forall k | k in Collected(StatusMetric, records)
        ensures exists i :: 0 <= i < |records| && records[i].name == k
      {
        if k != records[n].name {
          var i :| 0 <= i < |front| && front[i].name == k;
          assert records[i].name == k;
        }
      }
      forall k, i | 0 <= i < |records| && records[i].name == k && !Occurs(StatsName, k)
        ensures k in Collected(StatusMetric, records)
      {
        if i < n {
          assert front[i].name == k;
        }
      }
      forall k, i | LastFor(records, k, i) && !Occurs(StatsName, k)
        ensures Collected(StatusMetric, records)[k] == records[i].status
      {
        if i < n {
          assert LastFor(front, k, i);
        }
      }
    }
  }

  /** Another metric type records nothing. */
  lemma {:induction false} CollectedOtherMetric(metricType: string, records: seq<Record>)
    requires metricType != StatusMetric
    ensures Collected(metricType, records) == map[]
    decreases |records|
  {
    if records != [] {
      CollectedOtherMetric(metricType, records[..|records| - 1]);
    }
  }

  /** `_getBackends` / `_getFrontends`: the dict of the listed records'
      statuses, or `None` (the helpers' `False`) when the listing raises. */
  method FetchStatuses(metricType: string, listing: Option<seq<Record>>) returns (r: Option<map<string, string>>)
    ensures listing.None? <==> r.None?
    ensures listing.Some? ==> r == Some(Collected(metricType, listing.value))
  {
    if listing.None? {
      return None;
    }
    var records := listing.value;
    var statuses: map<string, string> := map[];
    var i := 0;
    while i < |records|
      invariant 0 <= i <= |records|
      invariant statuses == Collected(metricType, records[..i])
    {
      var rec := records[i];
      assert records[..i + 1][..i] == records[..i];
      if !Occurs(StatsName, rec.name) {
        if metricType == StatusMetric {
          statuses := statuses[rec.name := rec.status];
        }
      }
      i := i + 1;
    }
    assert records[..|records|] == records;
    return Some(statuses);
  }

  // ---------------------------------------------------------------------
  // Exclusion

  /** The exclusion comprehension: a service is kept when its name is not
      a substring of the raw exclusion string. */
  function Exclude(statuses: map<string, string>, exclusion: string): (kept: map<string, string>)
    ensures kept.Keys <= statuses.Keys
    ensures forall k :: k in kept ==> kept[k] == statuses[k]
    ensures forall k :: k in statuses ==> (k !in kept <==> Occurs(k, exclusion))
  {
    map k | k in statuses && !Occurs(k, exclusion) :: statuses[k]
  }

  /** With no configured exclusion only a service with an empty name is
      dropped, because the empty string is a substring of every string. */
  lemma ExcludeNothingConfigured(statuses: map<string, string>)
    ensures Exclude(statuses, "") == statuses - {""}
  {
    forall k | k in statuses
      ensures k in Exclude(statuses, "") <==> k != ""
    {
      EmptyString(k);
    }
  }

  /** Every name spelled out in the exclusion string is dropped, whatever
      stands around it. */
  lemma ListedNameExcluded(statuses: map<string, string>, before: string, name: string, after: string)
    ensures name !in Exclude(statuses, before + name + after)
  {
    OccursInside(before, name, after);
  }

  /** The exclusion is not by list entry: with "web10,api" configured, the
      service "web1" is dropped too, and so is "b10,a", while "db" is kept. */
  lemma ExcludeIsBySubstring(statuses: map<string, string>, exclusion: string)
    requires exclusion == "web10,api"
    requires "web1" in statuses && "b10,a" in statuses && "db" in statuses
    ensures "web1" !in Exclude(statuses, exclusion)
    ensures "b10,a" !in Exclude(statuses, exclusion)
    ensures "db" in Exclude(statuses, exclusion)
  {
    assert exclusion == "" + "web1" + "0,api";
    ListedNameExcluded(statuses, "", "web1", "0,api");
    assert exclusion == "we" + "b10,a" + "pi";
    ListedNameExcluded(statuses, "we", "b10,a", "pi");
    assert 'd' in "db" && 'd' !in exclusion;
    OccursCharacters("db", exclusion);
  }

  // ---------------------------------------------------------------------
  // Classification

  /** The status that counts as healthy in each section. */
  function HealthyStatus(section: Section): string
  {
    match section
    case Backends => "UP"
    case Frontends => "OPEN"
  }

  const DownStatus := "DOWN"

  /** The state of the three bucket dicts when the bucketing loop ends:
      filled, or abandoned because `other_backend.append` raised. */
  datatype Bucketing =
    | Buckets(down: map<string, string>, up: map<string, string>, other: map<string, string>)
    | AppendRaised

  /** The bucket the section's loop sends a status to. */
  datatype Kind = DownKind | UpKind | OtherKind

  function KindOf(section: Section, status: string): Kind
  {
    if status == DownStatus then DownKind
    else if status == HealthyStatus(section) then UpKind
    else OtherKind
  }

  /** The entries of `statuses` whose status goes to bucket `kind`. */
  function Select(section: Section, statuses: map<string, string>, kind: Kind): map<string, string>
  {
    map k | k in statuses && KindOf(section, statuses[k]) == kind :: statuses[k]
  }

  /** The outcome of the bucketing loops: a frontend status other than DOWN
      and OPEN makes the loop call `append` on a dict, which raises; otherwise
      every entry goes to the bucket its status names. */
  function Classify(section: Section, statuses: map<string, string>): Bucketing
  {
    if section == Frontends && exists k :: k in statuses && KindOf(section, statuses[k]) == OtherKind then AppendRaised
    else Buckets(Select(section, statuses, DownKind), Select(section, statuses, UpKind), Select(section, statuses, OtherKind))
  }

  /** The buckets split the filtered dict: they are pairwise disjoint, their
      union is the dict, and each holds exactly the entries of its status. */
  lemma ClassifyPartitions(section: Section, statuses: map<string, string>)
    requires Classify(section, statuses).Buckets?
    ensures var b := Classify(section, statuses);
      && b.down.Keys !! b.up.Keys && b.down.Keys !! b.other.Keys && b.up.Keys !! b.other.Keys
      && b.down + b.up + b.other == statuses
      && (forall k :: k in b.down <==> k in statuses && statuses[k] == DownStatus)
      && (forall k :: k in b.up <==> k in statuses && statuses[k] == HealthyStatus(section))
      && (forall k :: k in b.other <==> k in statuses && statuses[k] != DownStatus && statuses[k] != HealthyStatus(section))
  {
    var b := Classify(section, statuses);
    assert (b.down + b.up + b.other).Keys == statuses.Keys;
  }

  /** A frontend in any state but DOWN or OPEN makes the frontend loop raise;
      frontends never fill the other bucket. */
  lemma FrontendOtherRaises(statuses: map<string, string>)
    ensures Classify(Frontends, statuses) == AppendRaised <==>
      exists k :: k in statuses && statuses[k] != DownStatus && statuses[k] != "OPEN"
    ensures Classify(Frontends, statuses).Buckets? ==> Classify(Frontends, statuses).other == map[]
  {
  }

  /** Adding one new entry to a dict adds it to the bucket its status names
      and leaves the other buckets alone. */
  lemma SelectAdd(section: Section, seen: map<string, string>, k: string, v: string, kind: Kind)
    requires k !in seen
    ensures Select(section, seen[k := v], kind)
            == if KindOf(section, v) == kind then Select(section, seen, kind)[k := v] else Select(section, seen, kind)
  {
  }

  /** The bucketing loops of `main`: walk the filtered dict and put each
      entry into the down, up or other dict; for frontends the `else` branch
      calls `append` on the other dict, which raises at once. */
  method Bucket(section: Section, statuses: map<string, string>) returns (b: Bucketing)
    ensures b == Classify(section, statuses)
  {
    var down: map<string, string> := map[];
    var up: map<string, string> := map[];
    var other: map<string, string> := map[];
    var rest := statuses.Keys;
    ghost var seen: map<string, string> := map[];
    while rest != {}
      invariant rest <= statuses.Keys
      invariant seen.Keys == statuses.Keys - rest
      invariant forall k :: k in seen ==> k in statuses && seen[k] == statuses[k]
      invariant down == Select(section, seen, DownKind)
      invariant up == Select(section, seen, UpKind)
      invariant other == Select(section, seen, OtherKind)
      invariant section == Frontends ==> other == map[]
      decreases rest
    {
      var k :| k in rest;
      var v := statuses[k];
      SelectAdd(section, seen, k, v, DownKind);
      SelectAdd(section, seen, k, v, UpKind);
      SelectAdd(section, seen, k, v, OtherKind);
      if v == DownStatus {
        down := down[k := v];
      } else if v == HealthyStatus(section) {
        up := up[k := v];
      } else if section == Frontends {
        return AppendRaised;
      } else {
        other := other[k := v];
      }
      seen := seen[k := v];
      rest := rest - {k};
    }
    assert seen == statuses;
    assert section == Frontends ==> forall k :: k in statuses ==> k !in other;
    return Buckets(down, up, other);
  }

  // ---------------------------------------------------------------------
  // Verdict

  /** The exceptions that reach the `except` ladder. */
  datatype Raised = DownRaised | OtherRaised | UpRaised | AppendError

  /** The exception the try block ends with, if any: the three checks after
      the loops run in order and the first that holds raises. */
  function RaisedBy(b: Bucketing): Option<Raised>
  {
    match b
    case AppendRaised => Some(AppendError)
    case Buckets(down, up, other) =>
      if |down| > 0 && |other| == 0 then Some(DownRaised)
      else if |other| > 0 then Some(OtherRaised)
      else if |up| > 0 then Some(UpRaised)
      else None
  }

  /** The exit the `except` handler for `e` requests. */
  function Handler(e: Raised, b: Bucketing): Verdict
  {
    match (e, b)
    case (DownRaised, Buckets(down, _, _)) => SomeDown(down)
    case (OtherRaised, Buckets(_, _, other)) => SomeOther(other)
    case (UpRaised, Buckets(_, up, _)) => AllUp(|up|)
    case _ => ProcessingFailed
  }

  /** The try block, its handlers and the `finally` clause: when both the
      down and the other dict are non-empty the `finally` clause raises its
      own exit, which replaces the one in flight; otherwise the handler's exit
      stands, and without an exception `main` returns. */
  function Reduce(b: Bucketing): Verdict
  {
    var pending := match RaisedBy(b) case None => Returned case Some(e) => Handler(e, b);
    if b.Buckets? && |b.down| > 0 && |b.other| > 0 then DownOrOther(b.down + b.other)
    else pending
  }

  /** The precedence the chain amounts to. */
  lemma ReducePrecedence(b: Bucketing)
    ensures b.AppendRaised? ==> Reduce(b) == ProcessingFailed && ExitCode(Reduce(b)) == 2
    ensures b.Buckets? && |b.down| > 0 && |b.other| == 0 ==>
      Reduce(b) == SomeDown(b.down) && ExitCode(Reduce(b)) == 2
    ensures b.Buckets? && |b.down| == 0 && |b.other| > 0 ==>
      Reduce(b) == SomeOther(b.other) && ExitCode(Reduce(b)) == -1
    ensures b.Buckets? && |b.down| > 0 && |b.other| > 0 ==>
      Reduce(b) == DownOrOther(b.down + b.other) && ExitCode(Reduce(b)) == 2
    ensures b.Buckets? && |b.down| == 0 && |b.other| == 0 && |b.up| > 0 ==>
      Reduce(b) == AllUp(|b.up|) && ExitCode(Reduce(b)) == 0
    ensures b.Buckets? && |b.down| == 0 && |b.other| == 0 && |b.up| == 0 ==>
      Reduce(b) == Returned && ExitCode(Reduce(b)) == 0
  {
  }

  /** With services both down and in another state, the try block raises
      ExceptionOtherBackend, whose handler asks for UNKNOWN, and the `finally`
      clause turns that into ERROR reporting both dicts. */
  lemma FinallyOverridesUnknown(b: Bucketing)
    requires b.Buckets? && |b.down| > 0 && |b.other| > 0
    ensures RaisedBy(b) == Some(OtherRaised)
    ensures ExitCode(Handler(OtherRaised, b)) == Code(Unknown)
    ensures ExitCode(Reduce(b)) == Code(Error)
    ensures Reduce(b).DownOrOther? && Reduce(b).failing.Keys == b.down.Keys + b.other.Keys
    ensures b.down.Keys !! b.other.Keys ==> |Reduce(b).failing| == |b.down| + |b.other|
  {
    if b.down.Keys !! b.other.Keys {
      assert (b.down + b.other).Keys == b.down.Keys + b.other.Keys;
    }
  }

  // ---------------------------------------------------------------------
  // The whole run

  /** The run of `main` for the given options, socket client and exclusion
      string, as one function of its inputs. */
  function Outcome(socketsPath: Option<string>, sectionType: Option<string>, client: Client, exclusion: string): Verdict
  {
    match ParseArguments(socketsPath, sectionType)
    case None => BadArguments
    case Some(section) =>
      match client
      case CannotConnect => ConnectFailed
      case ListingRaises => FetchFailed
      case Lists(records) =>
        var fetched := Collected(StatusMetric, records);
        if fetched == map[] then NothingFetched
        else Reduce(Classify(section, Exclude(fetched, exclusion)))
  }

  /** `main`: check the options, open the client, fetch, exclude, bucket and
      reduce, in the script's order. */
  method CheckState(socketsPath: Option<string>, sectionType: Option<string>, client: Client, exclusion: string)
    returns (v: Verdict)
    ensures v == Outcome(socketsPath, sectionType, client, exclusion)
  {
    var parsed := ParseArguments(socketsPath, sectionType);
    if parsed.None? {
      return BadArguments;
    }
    var section := parsed.value;
    if client.CannotConnect? {
      return ConnectFailed;
    }
    var listing := if client.Lists? then Some(client.records) else None;
    var fetched := FetchStatuses(StatusMetric, listing);
    if fetched.None? {
      return FetchFailed;
    }
    if fetched.value == map[] {
      return NothingFetched;
    }
    var filtered := Exclude(fetched.value, exclusion);
    var buckets := Bucket(section, filtered);
    v := Reduce(buckets);
  }

  // ---------------------------------------------------------------------
  // Properties of the whole run

  /** Argument errors end the run with ERROR whatever the client would do. */
  lemma BadArgumentsBeforeFetch(socketsPath: Option<string>, sectionType: Option<string>, client: Client, exclusion: string)
    requires !Given(socketsPath) || sectionType !in {Some("backends"), Some("frontends")}
    ensures Outcome(socketsPath, sectionType, client, exclusion) == BadArguments
    ensures ExitCode(Outcome(socketsPath, sectionType, client, exclusion)) == Code(Error)
  {
  }

  /** A client that raises while listing, like one that lists nothing usable,
      ends the run with UNKNOWN and never with ERROR. */
  lemma FetchFailureIsUnknown(socketsPath: Option<string>, sectionType: Option<string>, records: seq<Record>, exclusion: string)
    requires ParseArguments(socketsPath, sectionType).Some?
    requires forall i :: 0 <= i < |records| ==> Occurs(StatsName, records[i].name)
    ensures ExitCode(Outcome(socketsPath, sectionType, ListingRaises, exclusion)) == Code(Unknown)
    ensures ExitCode(Outcome(socketsPath, sectionType, Lists(records), exclusion)) == Code(Unknown)
  {
    CollectedContents(records);
    assert Collected(StatusMetric, records) == map[];
  }

  /** When every fetched service is excluded, no bucket is filled, nothing is
      raised and `main` returns: exit 0 with no message. */
  lemma AllExcludedReturns(socketsPath: Option<string>, sectionType: Option<string>, records: seq<Record>, exclusion: string)
    requires ParseArguments(socketsPath, sectionType).Some?
    requires exists i :: 0 <= i < |records| && !Occurs(StatsName, records[i].name)
    requires forall i :: 0 <= i < |records| && !Occurs(StatsName, records[i].name) ==>
      Occurs(records[i].name, exclusion)
    ensures Outcome(socketsPath, sectionType, Lists(records), exclusion) == Returned
    ensures ExitCode(Outcome(socketsPath, sectionType, Lists(records), exclusion)) == Code(Ok)
  {
    CollectedContents(records);
    var fetched := Collected(StatusMetric, records);
    var i :| 0 <= i < |records| && !Occurs(StatsName, records[i].name);
    assert records[i].name in fetched;
    forall k | k in fetched
      ensures Occurs(k, exclusion)
    {
      var j :| 0 <= j < |records| && records[j].name == k;
    }
    assert Exclude(fetched, exclusion) == map[];
  }

  /** Once the options are accepted and the fetch is non-empty, the run's
      verdict is the chain's verdict on the bucketed, filtered dict. */
  lemma OutcomeOfListing(socketsPath: Option<string>, sectionType: Option<string>, section: Section,
                         records: seq<Record>, exclusion: string)
    requires ParseArguments(socketsPath, sectionType) == Some(section)
    requires Collected(StatusMetric, records) != map[]
    ensures Outcome(socketsPath, sectionType, Lists(records), exclusion)
            == Reduce(Classify(section, Exclude(Collected(StatusMetric, records), exclusion)))
  {
  }

  /** The verdict chain on backend buckets, in terms of the filtered dict:
      the precedence of `ReducePrecedence` applied to the entries whose status
      is DOWN, UP, or anything else. */
  lemma BackendReduce(filtered: map<string, string>)
    ensures var down := Select(Backends, filtered, DownKind);
      var up := Select(Backends, filtered, UpKind);
      var other := Select(Backends, filtered, OtherKind);
      var v := Reduce(Classify(Backends, filtered));
      && (|down| > 0 && |other| == 0 ==> v == SomeDown(down))
      && (|down| == 0 && |other| > 0 ==> v == SomeOther(other))
      && (|down| > 0 && |other| > 0 ==> v == DownOrOther(down + other))
      && (|down| == 0 && |other| == 0 && |up| > 0 ==> v == AllUp(|up|))
      && (|down| == 0 && |other| == 0 && |up| == 0 ==> v == Returned)
  {
    var b := Classify(Backends, filtered);
    assert b == Buckets(Select(Backends, filtered, DownKind), Select(Backends, filtered, UpKind),
                        Select(Backends, filtered, OtherKind));
    ReducePrecedence(b);
  }

  /** For a backend run the verdict is the chain's verdict on the filtered
      dict. */
  lemma BackendVerdicts(socketsPath: Option<string>, records: seq<Record>, exclusion: string)
    requires Given(socketsPath) && Collected(StatusMetric, records) != map[]
    ensures var filtered := Exclude(Collected(StatusMetric, records), exclusion);
      var down := Select(Backends, filtered, DownKind);
      var up := Select(Backends, filtered, UpKind);
      var other := Select(Backends, filtered, OtherKind);
      var v := Outcome(socketsPath, Some("backends"), Lists(records), exclusion);
      && (|down| > 0 && |other| == 0 ==> v == SomeDown(down))
      && (|down| == 0 && |other| > 0 ==> v == SomeOther(other))
      && (|down| > 0 && |other| > 0 ==> v == DownOrOther(down + other))
      && (|down| == 0 && |other| == 0 && |up| > 0 ==> v == AllUp(|up|))
      && (|down| == 0 && |other| == 0 && |up| == 0 ==> v == Returned)
  {
    OutcomeOfListing(socketsPath, Some("backends"), Backends, records, exclusion);
    BackendReduce(Exclude(Collected(StatusMetric, records), exclusion));
  }

  /** The verdict chain on frontend buckets: any state but DOWN or OPEN
      gives the generic handler's ERROR; otherwise DOWN frontends give ERROR
      reporting exactly them, and if all are open the verdict is OK counting
      them. */
  lemma FrontendReduce(filtered: map<string, string>)
    ensures var v := Reduce(Classify(Frontends, filtered));
      && ((exists k :: k in filtered && filtered[k] != DownStatus && filtered[k] != "OPEN") ==> v == ProcessingFailed)
      && ((forall k :: k in filtered ==> filtered[k] == "OPEN") && |filtered| > 0 ==> v == AllUp(|filtered|))
      && ((exists k :: k in filtered && filtered[k] == DownStatus)
          && (forall k :: k in filtered ==> filtered[k] == DownStatus || filtered[k] == "OPEN") ==>
          v == SomeDown(Select(Frontends, filtered, DownKind)))
      && (|filtered| == 0 ==> v == Returned)
  {
    var b := Classify(Frontends, filtered);
    if exists k :: k in filtered && KindOf(Frontends, filtered[k]) == OtherKind {
      assert b == AppendRaised;
    } else {
      var down := Select(Frontends, filtered, DownKind);
      var up := Select(Frontends, filtered, UpKind);
      assert Select(Frontends, filtered, OtherKind) == map[];
      assert b == Buckets(down, up, map[]);
      if forall k :: k in filtered ==> filtered[k] == "OPEN" {
        assert up == filtered;
        assert down == map[];
      }
      if exists k :: k in filtered && filtered[k] == DownStatus {
        var k :| k in filtered && filtered[k] == DownStatus;
        assert k in down;
      }
    }
  }

  /** For a frontend run the verdict is the chain's verdict on the filtered
      dict. */
  lemma FrontendVerdicts(socketsPath: Option<string>, records: seq<Record>, exclusion: string)
    requires Given(socketsPath) && Collected(StatusMetric, records) != map[]
    ensures var filtered := Exclude(Collected(StatusMetric, records), exclusion);
      var v := Outcome(socketsPath, Some("frontends"), Lists(records), exclusion);
      && ((exists k :: k in filtered && filtered[k] != DownStatus && filtered[k] != "OPEN") ==> v == ProcessingFailed)
      && ((forall k :: k in filtered ==> filtered[k] == "OPEN") && |filtered| > 0 ==> v == AllUp(|filtered|))
      && ((exists k :: k in filtered && filtered[k] == DownStatus)
          && (forall k :: k in filtered ==> filtered[k] == DownStatus || filtered[k] == "OPEN") ==>
          v == SomeDown(Select(Frontends, filtered, DownKind)))
      && (|filtered| == 0 ==> v == Returned)
  {
    OutcomeOfListing(socketsPath, Some("frontends"), Frontends, records, exclusion);
    FrontendReduce(Exclude(Collected(StatusMetric, records), exclusion));
  }

  /** Two records that do not name "stats" give a dict of both, the second
      winning if the names agree. */
  lemma CollectedTwo(first: Record, second: Record)
    requires !Occurs(StatsName, first.name) && !Occurs(StatsName, second.name)
    ensures Collected(StatusMetric, [first, second]) == map[first.name := first.status][second.name := second.status]
  {
    var records := [first, second];
    assert records[..1] == [first] && records[..1][..0] == [];
    assert Collected(StatusMetric, records[..1]) == map[first.name := first.status];
  }

  /** One backend up and another down, neither excluded: ERROR reporting
      exactly the down one. */
  lemma OneBackendDown(socketsPath: Option<string>, upName: string, downName: string, exclusion: string)
    requires Given(socketsPath) && upName != downName
    requires !Occurs(StatsName, upName) && !Occurs(StatsName, downName)
    requires !Occurs(upName, exclusion) && !Occurs(downName, exclusion)
    ensures Outcome(socketsPath, Some("backends"), Lists([Record(upName, "UP"), Record(downName, "DOWN")]), exclusion)
            == SomeDown(map[downName := "DOWN"])
  {
    var records := [Record(upName, "UP"), Record(downName, "DOWN")];
    var fetched := map[upName := "UP", downName := "DOWN"];
    CollectedTwo(records[0], records[1]);
    assert Exclude(fetched, exclusion) == fetched;
    var down := map[downName := "DOWN"];
    assert KindOf(Backends, fetched[upName]) == UpKind && KindOf(Backends, fetched[downName]) == DownKind;
    assert fetched.Keys == {upName, downName};
    assert Select(Backends, fetched, DownKind).Keys == {downName};
    assert Select(Backends, fetched, OtherKind).Keys == {};
    var b := Classify(Backends, fetched);
    assert b.down == down && b.other == map[];
    OutcomeOfListing(socketsPath, Some("backends"), Backends, records, exclusion);
    assert |down| == 1;
    ReducePrecedence(b);
  }

  /** One frontend open and one in maintenance: the frontend loop raises on
      the second, so the run ends with ERROR rather than UNKNOWN. */
  lemma ScenarioFrontendInMaintenance(records: seq<Record>)
    requires records == [Record("fe1", "OPEN"), Record("fe2", "MAINT")]
    ensures Outcome(Some("/var/run/haproxy/"), Some("frontends"), Lists(records), "")
            == ProcessingFailed
  {
    OccursNoLonger(StatsName, records[0].name);
    OccursNoLonger(StatsName, records[1].name);
    CollectedTwo(records[0], records[1]);
    var fetched := map["fe1" := "OPEN", "fe2" := "MAINT"];
    ExcludeNothingConfigured(fetched);
    assert Exclude(fetched, "") == fetched;
    assert KindOf(Frontends, fetched["fe2"]) == OtherKind;
    assert Classify(Frontends, fetched) == AppendRaised;
    assert ParseArguments(Some("/var/run/haproxy/"), Some("frontends")) == Some(Frontends);
  }
}
