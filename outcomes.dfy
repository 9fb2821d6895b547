/** Absent values and failures of the import script, as datatypes. */
module Outcomes {

  /** A JavaScript value that may be `undefined`. */
  datatype Option<+T> = None | Some(value: T)

  /** Why one import step, or the whole run, stops. */
  datatype Failure =
    | NoLighthouseTickets         // `results.lighthouse[0].number` on an empty list
    | MoreGithubIssues            // the thrown "Can't import ..." string
    | FetchFailed(id: int)        // `lh.getTicket` reported an error
    | MissingBody(id: int)        // `.replace` called on an absent body
    | CreateFailed(id: int)       // `gh.issues.create` reported an error

  datatype Result<+T> = Ok(value: T) | Err(error: Failure)
}
