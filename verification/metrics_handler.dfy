/**
 * The `/metrics` request: for each configured instance, validate its
 * settings, check its job list, drain its workers' results, then count the
 * builds of the day across all instances and emit the rows. Network calls
 * are parameters: the fetched job list and the drained worker results of
 * each instance are part of its input, in whatever order they arrived.
 */
module MetricsHandler {
  import opened Outcomes
  import opened JenkinsModel
  import opened JenkinsConfig
  import opened BuildDetails
  import opened BuildCounter
  import opened StatsRows

  /** What one worker sends on the result channel. */
  datatype WorkerResult = WorkerError(msg: string) | WorkerBuilds(builds: seq<JenkinsBuildsResponse>)

  /**
   * One worker's job: on a failed history fetch it reports the error,
   * otherwise it emits one envelope per listed build, in list order, each
   * tagged with the instance and the job. `details[k]` is the decoded
   * detail document fetched for the k-th build.
   */
  method RunWorker(jenkinsInstanceName: string, job: JenkinsJobs, history: Result<seq<Builds>>,
                   details: seq<JsonObject>) returns (res: WorkerResult)
    requires history.Ok? ==> |details| == |history.value|
    requires history.Ok? ==> forall k :: 0 <= k < |details| ==> WellTyped(details[k])
    ensures history.Err? ==> res == WorkerError(history.msg)
    ensures history.Ok? ==> res.WorkerBuilds? && |res.builds| == |history.value|
    ensures history.Ok? ==> forall k :: 0 <= k < |res.builds| ==>
      res.builds[k] == GetBuildInfo(jenkinsInstanceName, job.name, job.jobsURL, history.value[k], details[k])
    ensures res.WorkerBuilds? ==> forall k :: 0 <= k < |Records(res.builds)| ==>
      Records(res.builds)[k].jenkinsInstanceName == jenkinsInstanceName
      && Records(res.builds)[k].jobName == job.name
  {
    if history.Err? {
      return WorkerError(history.msg);
    }
    var builds := history.value;
    var buildData: seq<JenkinsBuildsResponse> := [];
    var i := 0;
    while i < |builds|
      invariant 0 <= i <= |builds| && |buildData| == i
      invariant forall k :: 0 <= k < i ==>
        buildData[k] == GetBuildInfo(jenkinsInstanceName, job.name, job.jobsURL, builds[k], details[k])
      invariant forall k :: 0 <= k < |Records(buildData)| ==>
        Records(buildData)[k].jenkinsInstanceName == jenkinsInstanceName
        && Records(buildData)[k].jobName == job.name
    {
      var data := GetBuildInfo(jenkinsInstanceName, job.name, job.jobsURL, builds[i], details[i]);
      assert (buildData + [data])[..i] == buildData;
      buildData := buildData + [data];
      i := i + 1;
    }
    res := WorkerBuilds(buildData);
  }

  /** The drain of one instance's results: the first error aborts, otherwise each build list is appended. */
  function Drain(responseData: seq<seq<JenkinsBuildsResponse>>, results: seq<WorkerResult>)
    : Result<seq<seq<JenkinsBuildsResponse>>>
    decreases |results|
  {
    if results == [] then Ok(responseData)
    else match results[0]
      case WorkerError(msg) => Err(msg)
      case WorkerBuilds(builds) => Drain(responseData + [builds], results[1..])
  }

  /** `msg` is the message of the first error among `results`. */
  predicate FirstError(results: seq<WorkerResult>, msg: string) {
    exists k :: 0 <= k < |results| && results[k] == WorkerError(msg)
                && forall k' :: 0 <= k' < k ==> results[k'].WorkerBuilds?
  }

  /**
   * The drain fails exactly when some worker reported an error, and then with
   * the first such message; otherwise it appends every build list, in drain
   * order, after what was already collected.
   */
  lemma {:induction false} DrainSpec(responseData: seq<seq<JenkinsBuildsResponse>>, results: seq<WorkerResult>)
    ensures var r := Drain(responseData, results);
      && (r.Err? <==> exists k :: 0 <= k < |results| && results[k].WorkerError?)
      && (r.Err? ==> FirstError(results, r.msg))
      && (r.Ok? ==>
            && |r.value| == |responseData| + |results|
            && r.value[..|responseData|] == responseData
            && forall k :: 0 <= k < |results| ==> r.value[|responseData| + k] == results[k].builds)
    decreases |results|
  {
    if results != [] {
      var rest := results[1..];
      match results[0]
      case WorkerError(msg) =>
        assert FirstError(results, msg);
      case WorkerBuilds(builds) =>
        DrainSpec(responseData + [builds], rest);
        var r := Drain(responseData, results);
        assert r == Drain(responseData + [builds], rest);
        if r.Err? {
          var k :| 0 <= k < |rest| && rest[k] == WorkerError(r.msg)
                   && forall k' :: 0 <= k' < k ==> rest[k'].WorkerBuilds?;
          assert results[k + 1] == WorkerError(r.msg);
        } else {
          forall k | 0 <= k < |results| ensures results[k].WorkerBuilds? {
            if k > 0 { assert results[k] == rest[k - 1]; }
          }
          forall k | 0 <= k < |results| ensures r.value[|responseData| + k] == results[k].builds {
            if k > 0 { assert results[k] == rest[k - 1]; }
          }
        }
    }
  }

  /** The drain loop, returning at the first error. */
  method DrainResults(responseData: seq<seq<JenkinsBuildsResponse>>, results: seq<WorkerResult>)
    returns (r: Result<seq<seq<JenkinsBuildsResponse>>>)
    ensures r == Drain(responseData, results)
  {
    var collected := responseData;
    var i := 0;
    while i < |results|
      invariant 0 <= i <= |results|
      invariant Drain(responseData, results) == Drain(collected, results[i..])
    {
      assert results[i..][1..] == results[i + 1..];
      match results[i]
      case WorkerError(msg) =>
        return Err(msg);
      case WorkerBuilds(builds) =>
        collected := collected + [builds];
      i := i + 1;
    }
    r := Ok(collected);
  }

  /** The check made on an instance's job list before any worker starts. */
  datatype Guard = Skip | Proceed | IndexPanic

  /**
   * A nil list or a first job without URL skips the instance; a non-nil
   * empty list makes the first-element access panic.
   */
  function JobsGuard(jobs: Option<seq<JenkinsJobs>>): (g: Guard)
    ensures g == Skip <==> jobs.None? || (jobs.value != [] && jobs.value[0].jobsURL == "")
    ensures g == IndexPanic <==> jobs == Some([])
    ensures g == Proceed <==> jobs.Some? && jobs.value != [] && jobs.value[0].jobsURL != ""
  {
    match jobs
    case None => Skip
    case Some(list) =>
      if |list| == 0 then IndexPanic
      else if list[0].jobsURL == "" then Skip
      else Proceed
  }

  /**
   * Everything the request needs to know about one configured instance. The
   * instance's name reaches the counters only through the records its
   * workers produced, so it is not a separate field.
   */
  datatype InstanceInput = InstanceInput(
    config: ConfigEntry,
    jobs: Result<Option<seq<JenkinsJobs>>>,
    results: seq<WorkerResult>)

  /** The response: an error message, a recovered panic (HTTP 500), or the rows. */
  datatype Response = Failure(error: string) | Crash | Metrics(stats: seq<JobStats>)

  const ErrConfigFormat := "Jenkins配置格式错误"

  /** The state of the per-instance loop: still collecting, or halted with a response. */
  datatype Gather = Gathered(data: seq<seq<JenkinsBuildsResponse>>) | Halted(response: Response)

  /** One iteration of the per-instance loop. */
  function InstanceStep(responseData: seq<seq<JenkinsBuildsResponse>>, instance: InstanceInput): Gather {
    if GetJenkinsConfig(instance.config).Err? then Halted(Failure(ErrConfigFormat))
    else match instance.jobs
      case Err(msg) => Halted(Failure(msg))
      case Ok(jobs) =>
        match JobsGuard(jobs)
        case Skip => Gathered(responseData)
        case IndexPanic => Halted(Crash)
        case Proceed =>
          match Drain(responseData, instance.results)
          case Err(msg) => Halted(Failure(msg))
          case Ok(data) => Gathered(data)
  }

  /** The per-instance loop, in the order the instances are visited. */
  function Collect(responseData: seq<seq<JenkinsBuildsResponse>>, instances: seq<InstanceInput>): Gather
    decreases |instances|
  {
    if instances == [] then Gathered(responseData)
    else match InstanceStep(responseData, instances[0])
      case Halted(response) => Halted(response)
      case Gathered(data) => Collect(data, instances[1..])
  }

  /** The instance gets as far as its workers' results. */
  predicate Proceeds(instance: InstanceInput) {
    GetJenkinsConfig(instance.config).Ok? && instance.jobs.Ok? && JobsGuard(instance.jobs.value) == Proceed
  }

  /**
   * One failing job spoils the whole request: when an instance that reaches
   * its workers has an error among their results, the request fails with the
   * first such message, whatever its other jobs and the instances visited
   * after it hold.
   */
  lemma WorkerErrorAbortsRequest(responseData: seq<seq<JenkinsBuildsResponse>>, instance: InstanceInput,
                                 rest: seq<InstanceInput>)
    requires Proceeds(instance)
    requires exists k :: 0 <= k < |instance.results| && instance.results[k].WorkerError?
    ensures var g := Collect(responseData, [instance] + rest);
      g.Halted? && g.response.Failure? && FirstError(instance.results, g.response.error)
  {
    DrainSpec(responseData, instance.results);
    assert ([instance] + rest)[0] == instance;
  }

  /** A configuration error stops the request with the fixed message, before anything is fetched. */
  lemma ConfigErrorAbortsRequest(responseData: seq<seq<JenkinsBuildsResponse>>, instance: InstanceInput,
                                 rest: seq<InstanceInput>)
    requires GetJenkinsConfig(instance.config).Err?
    ensures Collect(responseData, [instance] + rest) == Halted(Failure(ErrConfigFormat))
  {
    assert ([instance] + rest)[0] == instance;
  }

  /** A skipped instance contributes nothing and the loop goes on with the next one. */
  lemma SkippedInstanceContributesNothing(responseData: seq<seq<JenkinsBuildsResponse>>, instance: InstanceInput,
                                          rest: seq<InstanceInput>)
    requires GetJenkinsConfig(instance.config).Ok? && instance.jobs.Ok? && JobsGuard(instance.jobs.value) == Skip
    ensures Collect(responseData, [instance] + rest) == Collect(responseData, rest)
  {
    assert ([instance] + rest)[0] == instance;
    assert ([instance] + rest)[1..] == rest;
  }

  /**
   * When every instance reaches its workers and no worker failed, the
   * collected data is every instance's build lists, instance by instance,
   * in drain order.
   */
  lemma {:induction false} CollectAllHealthy(responseData: seq<seq<JenkinsBuildsResponse>>,
                                              instances: seq<InstanceInput>)
    requires forall n :: 0 <= n < |instances| ==> Proceeds(instances[n])
    requires forall n, k :: 0 <= n < |instances| && 0 <= k < |instances[n].results| ==>
      instances[n].results[k].WorkerBuilds?
    ensures Collect(responseData, instances) == Gathered(responseData + AllBuilds(instances))
    decreases |instances|
  {
    if instances != [] {
      var first := instances[0];
      DrainSpec(responseData, first.results);
      var drained := Drain(responseData, first.results);
      assert drained.Ok?;
      assert drained.value == responseData + BuildLists(first.results) by {
        BuildListsAt(first.results);
      }
      CollectAllHealthy(drained.value, instances[1..]);
      assert responseData + BuildLists(first.results) + AllBuilds(instances[1..])
             == responseData + AllBuilds(instances);
    }
  }

  /** The build lists carried by worker results, in order. */
  function BuildLists(results: seq<WorkerResult>): (r: seq<seq<JenkinsBuildsResponse>>)
    requires forall k :: 0 <= k < |results| ==> results[k].WorkerBuilds?
  {
    if results == [] then [] else [results[0].builds] + BuildLists(results[1..])
  }

  lemma {:induction false} BuildListsAt(results: seq<WorkerResult>)
    requires forall k :: 0 <= k < |results| ==> results[k].WorkerBuilds?
    ensures |BuildLists(results)| == |results|
    ensures forall k :: 0 <= k < |results| ==> BuildLists(results)[k] == results[k].builds
  {
    if results != [] {
      BuildListsAt(results[1..]);
      forall k | 0 <= k < |results| ensures BuildLists(results)[k] == results[k].builds {
        if k > 0 { assert results[k] == results[1..][k - 1]; }
      }
    }
  }

  /** Every instance's build lists, instance after instance. */
  function AllBuilds(instances: seq<InstanceInput>): seq<seq<JenkinsBuildsResponse>>
    requires forall n, k :: 0 <= n < |instances| && 0 <= k < |instances[n].results| ==>
      instances[n].results[k].WorkerBuilds?
  {
    if instances == [] then []
    else BuildLists(instances[0].results) + AllBuilds(instances[1..])
  }

  /**
   * The handler: the per-instance loop, then one count over everything
   * collected with a single `now`, then the rows.
   */
  method GetMetricsHandler(instances: seq<InstanceInput>, now: int) returns (resp: Response)
    requires now >= 0
    ensures Collect([], instances).Halted? ==> resp == Collect([], instances).response
    ensures Collect([], instances).Gathered? ==>
      resp.Metrics? && RowsFor(CountAll(map[], Flatten(Collect([], instances).data), now), resp.stats)
  {
    var responseData: seq<seq<JenkinsBuildsResponse>> := [];
    var i := 0;
    while i < |instances|
      invariant 0 <= i <= |instances|
      invariant Collect([], instances) == Collect(responseData, instances[i..])
    {
      var instance := instances[i];
      assert instances[i..][0] == instance && instances[i..][1..] == instances[i + 1..];
      var jobsConfig := GetJenkinsConfig(instance.config);
      if jobsConfig.Err? {
        return Failure(ErrConfigFormat);
      }
      if instance.jobs.Err? {
        return Failure(instance.jobs.msg);
      }
      var guard := JobsGuard(instance.jobs.value);
      if guard == IndexPanic {
        return Crash;
      }
      if guard == Proceed {
        var drained := DrainResults(responseData, instance.results);
        if drained.Err? {
          return Failure(drained.msg);
        }
        responseData := drained.value;
      }
      i := i + 1;
    }
    var resultMap := CountBuilds(responseData, now);
    var stats := EmitStats(resultMap);
    resp := Metrics(stats);
  }
}
