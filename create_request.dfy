/** The payload of `gh.issues.create` for one ticket. */
module CreateRequest {
  import opened Outcomes
  import opened Tickets
  import opened RepoPath

  /** The fields the script sends; an absent one is `undefined`. */
  datatype Request = Request(
    user: string,
    repo: Option<string>,
    title: string,
    labels: seq<string>,
    milestone: Option<string>,
    assignee: Option<string>,
    body: string)

  /** `userMap[ticket.assigned_user_id]`: the GitHub account, or `undefined`
      when the ticket has no assignee or the map lacks the id. */
  function Assignee(userMap: map<int, string>, userId: Option<int>): (r: Option<string>)
    ensures r.Some? <==> userId.Some? && userId.value in userMap
    ensures r.Some? ==> r.value == userMap[userId.value]
  {
    if userId.Some? && userId.value in userMap then Some(userMap[userId.value]) else None
  }

  /** The request built from the repository argument, the user map, the
      ticket and its composed body. */
  function MakeRequest(repoArg: string, userMap: map<int, string>, t: Ticket, body: string): (r: Request)
    ensures r.title == t.title && r.body == body && r.milestone == t.milestone_title
    ensures r.labels == ["imported"]
    ensures r.assignee.Some? <==> t.assigned_user_id.Some? && t.assigned_user_id.value in userMap
    ensures r.assignee.Some? ==> r.assignee.value == userMap[t.assigned_user_id.value]
    ensures '/' !in r.user && (r.repo.Some? ==> '/' !in r.repo.value)
    ensures r.repo.Some? <==> '/' in repoArg
    ensures r.repo.None? ==> r.user == repoArg
    ensures r.user == ParseRepository(repoArg).owner && r.repo == ParseRepository(repoArg).name
  {
    var repository := ParseRepository(repoArg);
    Request(repository.owner, repository.name, t.title, ["imported"],
            t.milestone_title, Assignee(userMap, t.assigned_user_id), body)
  }

  /** Owner and repository come from an `owner/name` argument unchanged. */
  lemma MakeRequestRepository(owner: string, name: string, userMap: map<int, string>, t: Ticket, body: string)
    requires '/' !in owner && '/' !in name
    ensures var r := MakeRequest(owner + "/" + name, userMap, t, body);
            r.user == owner && r.repo == Some(name)
  {
    ParseOwnerSlashName(owner, name);
  }
}
