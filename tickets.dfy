/** The Lighthouse records the script reads, with the fields it touches. */
module Tickets {
  import opened Outcomes

  /** One entry of `ticket.versions`: an edit or comment on the ticket. An
      absent `body` is JavaScript's `undefined`. */
  datatype Version = Version(user_name: string, created_at: string, body: Option<string>)

  /** A ticket as `lh.getTicket` returns it. Scalar fields that the script
      only concatenates are kept as the text they render to. */
  datatype Ticket = Ticket(
    number: int,
    title: string,
    url: string,
    creator_name: string,
    created_at: string,
    latest_body: Option<string>,
    versions: seq<Version>,
    milestone_title: Option<string>,
    assigned_user_id: Option<int>)

  /** A GitHub issue as `gh.issues.repoIssues` lists it; only its number is read. */
  datatype Issue = Issue(number: int)
}
