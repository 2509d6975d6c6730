/** The status of an asynchronous task. */
module TaskStatus {

  const SUBMITTED := "SUBMITTED"
  const QUEUED := "QUEUED"
  const IN_PROGRESS := "IN_PROGRESS"
  const SUCCESS := "SUCCESS"
  const FAILURE := "FAILURE"

  const COMPLETE := "100%"

  /** The upstream's answer. */
  datatype Info = Info(status: string, progress: string, url: string, reason: string)

  predicate Final(status: string) {
    status == SUCCESS || status == FAILURE
  }

  predicate Known(status: string) {
    status == SUBMITTED || status == QUEUED || status == IN_PROGRESS || Final(status)
  }

  /** Finished tasks are not fetched. */
  predicate Unfinished(status: string, progress: string) {
    progress != COMPLETE && !Final(status)
  }

  lemma UnfinishedIff(status: string, progress: string)
    ensures Unfinished(status, progress) <==> progress != "100%" && status != "SUCCESS" && status != "FAILURE"
  {
  }

  function ProgressOf(status: string): string {
    if status == SUBMITTED then "10%"
    else if status == QUEUED then "20%"
    else if status == IN_PROGRESS then "30%"
    else COMPLETE
  }
}
