/**
 * Normalisation of one fetched build-detail document into the record the
 * counter consumes. The HTTP fetch is not modelled: the decoded JSON object
 * is a parameter.
 */
module BuildDetails {
  import opened JenkinsModel

  /** A decoded JSON value; numbers are already whole. */
  datatype Json = JString(s: string) | JBool(b: bool) | JNumber(n: int) | JNull | JOther

  type JsonObject = map<string, Json>

  /** One build as the counter sees it. */
  datatype BuildInfo = BuildInfo(
    jenkinsInstanceName: string,
    jobName: string,
    building: bool,
    displayName: string,
    duration: int,
    number: int,
    result: string,
    timestamp: int,
    buildsURL: string,
    jobURL: string)

  /** The per-build envelope a worker emits: always one BuildInfo in practice. */
  datatype JenkinsBuildsResponse = JenkinsBuildsResponse(jenkinsInstanceName: string, jobs: seq<BuildInfo>)

  const DetailSuffix := "api/json?pretty=true"
  const BuildingResult := "Building"

  /** The detail document's address: the build URL with the suffix glued on, no separator added. */
  function DetailURL(build: Builds): (u: string)
    ensures |u| == |build.url| + |DetailSuffix|
    ensures u[..|build.url|] == build.url && u[|build.url|..] == DetailSuffix
  {
    build.url + DetailSuffix
  }

  /** The `result` field holds a non-empty string. */
  predicate HasResult(detail: JsonObject) {
    "result" in detail && detail["result"].JString? && detail["result"].s != ""
  }

  /** The build's result, with a missing, non-string, null or empty value read as "Building". */
  function NormalizedResult(detail: JsonObject): (r: string)
    ensures r != ""
    ensures HasResult(detail) ==> r == detail["result"].s
    ensures !HasResult(detail) ==> r == BuildingResult
  {
    if "result" in detail && detail["result"].JString? && detail["result"].s != "" then detail["result"].s
    else BuildingResult
  }

  /**
   * The fields the unchecked type assertions read are present with the
   * expected types; otherwise the source panics.
   */
  predicate WellTyped(detail: JsonObject) {
    && "building" in detail && detail["building"].JBool?
    && "displayName" in detail && detail["displayName"].JString?
    && "duration" in detail && detail["duration"].JNumber?
    && "timestamp" in detail && detail["timestamp"].JNumber?
    && "number" in detail && detail["number"].JNumber?
  }

  /** Builds the one-record response for one build of one job of one instance. */
  function GetBuildInfo(jenkinsInstanceName: string, jobName: string, jobURL: string, build: Builds,
                        detail: JsonObject): (r: JenkinsBuildsResponse)
    requires WellTyped(detail)
    ensures r.jenkinsInstanceName == jenkinsInstanceName && |r.jobs| == 1
    ensures r.jobs[0].jenkinsInstanceName == jenkinsInstanceName
    ensures r.jobs[0].jobName == jobName && r.jobs[0].jobURL == jobURL
    ensures r.jobs[0].buildsURL == build.url
    ensures r.jobs[0].building == detail["building"].b
    ensures r.jobs[0].displayName == detail["displayName"].s
    ensures r.jobs[0].duration == detail["duration"].n
    ensures r.jobs[0].timestamp == detail["timestamp"].n
    ensures r.jobs[0].number == detail["number"].n
    ensures HasResult(detail) ==> r.jobs[0].result == detail["result"].s
    ensures !HasResult(detail) ==> r.jobs[0].result == BuildingResult
  {
    var info := BuildInfo(
      jenkinsInstanceName := jenkinsInstanceName,
      jobName := jobName,
      building := detail["building"].b,
      displayName := detail["displayName"].s,
      duration := detail["duration"].n,
      number := detail["number"].n,
      result := NormalizedResult(detail),
      timestamp := detail["timestamp"].n,
      buildsURL := build.url,
      jobURL := jobURL);
    JenkinsBuildsResponse(jenkinsInstanceName, [info])
  }

  /** Normalising twice changes nothing: a normalised result written back normalises to itself. */
  lemma NormalizedResultIdempotent(detail: JsonObject)
    ensures NormalizedResult(detail["result" := JString(NormalizedResult(detail))]) == NormalizedResult(detail)
  {
    var d := detail["result" := JString(NormalizedResult(detail))];
    assert HasResult(d);
  }
}
