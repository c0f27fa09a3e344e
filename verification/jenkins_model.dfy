/** The records of the CI server's REST dialect that the metrics core consumes. */
module JenkinsModel {

  /** One entry of an instance's job list: its name and its URL. */
  datatype JenkinsJobs = JenkinsJobs(jobClass: string, name: string, jobsURL: string)

  /** One entry of a job's build list: the build number and the build's URL. */
  datatype Builds = Builds(buildsClass: string, number: int, url: string)

  /** Credentials shared by every request sent to one instance. */
  datatype JenkinsBaseRequest = JenkinsBaseRequest(jenkinsName: string, username: string, password: string)

  /** The validated settings of one configured instance. */
  datatype JenkinsJobsRequest = JenkinsJobsRequest(jenkinsURL: string, base: JenkinsBaseRequest)
}
