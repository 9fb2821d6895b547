/**
 * The import of a range of tickets, one at a time: for each number, fetch the
 * ticket from Lighthouse, compose its body, create the GitHub issue. The
 * first failure ends the run; issues created before it stay created.
 * The two remote services are given as functions: `fetch` answers a ticket
 * number with the ticket or nothing (an error), `create` answers a request
 * with whether GitHub accepted it.
 */
module Importer {
  import opened Outcomes
  import opened Tickets
  import opened BodyComposer
  import opened CreateRequest
  import opened Numbering

  /** What a run did: the numbers it fetched, the create requests it sent,
      in order, and the failure that ended it, if any. */
  datatype Report = Report(fetched: seq<int>, sent: seq<Request>, failure: Option<Failure>)

  /** The settings every step shares. */
  datatype Setup = Setup(
    repoArg: string,
    userMap: map<int, string>,
    fetch: int -> Option<Ticket>,
    create: Request -> bool)

  /** `r` recorded after the steps in `fetched` and `sent`. */
  function Prepend(fetched: seq<int>, sent: seq<Request>, r: Report): Report
  {
    Report(fetched + r.fetched, sent + r.sent, r.failure)
  }

  /** Recording two groups of steps one after the other records them together. */
  lemma PrependTwice(f1: seq<int>, s1: seq<Request>, f2: seq<int>, s2: seq<Request>, r: Report)
    ensures Prepend(f1, s1, Prepend(f2, s2, r)) == Prepend(f1 + f2, s1 + s2, r)
  {
  }

  /** The request the run sends for `t` when its body composes. */
  function RequestFor(s: Setup, t: Ticket): Request
    requires Compose(t).Ok?
  {
    MakeRequest(s.repoArg, s.userMap, t, Compose(t).value)
  }

  /** One waterfall: fetch, compose, create. It fetches its own number, and
      a failure names that number. */
  function Step(s: Setup, id: int): (r: Report)
    ensures r.fetched == [id]
    ensures r.failure.Some? ==> r.failure.value in {FetchFailed(id), MissingBody(id), CreateFailed(id)}
  {
    match s.fetch(id)
    case None => Report([id], [], Some(FetchFailed(id)))
    case Some(t) =>
      if Compose(t).Err? then Report([id], [], Some(MissingBody(id)))
      else
        var req := RequestFor(s, t);
        Report([id], [req], if s.create(req) then None else Some(CreateFailed(id)))
  }

  /** Step `id` succeeds: the ticket exists, composes and GitHub accepts it. */
  predicate Succeeds(s: Setup, id: int)
  {
    Step(s, id).failure.None?
  }

  /** One step fetches its own number and sends at most its own request;
      it succeeds exactly when the ticket was fetched, its body composed and
      GitHub accepted the request built from it. */
  lemma StepShape(s: Setup, id: int)
    ensures Succeeds(s, id) <==>
              s.fetch(id).Some? && Compose(s.fetch(id).value).Ok? &&
              s.create(RequestFor(s, s.fetch(id).value))
    ensures Step(s, id).fetched == [id]
    ensures |Step(s, id).sent| <= 1
    ensures Step(s, id).failure.None? ==> |Step(s, id).sent| == 1
    ensures Step(s, id).failure.Some? ==> Step(s, id).failure.value.id == id
    ensures Step(s, id).sent != [] ==>
              s.fetch(id).Some? && Compose(s.fetch(id).value).Ok? &&
              Step(s, id).sent[0] == RequestFor(s, s.fetch(id).value)
  {
  }

  /** A failing step's failure names the step's number. */
  lemma FailureNamesNumber(s: Setup, id: int)
    requires Step(s, id).failure.Some?
    ensures Step(s, id).failure.value.id == id
  {
    var f := Step(s, id).failure.value;
    assert f == FetchFailed(id) || f == MissingBody(id) || f == CreateFailed(id);
  }

  /** What the queue relies on from its tasks: task `k` fetches `ids[k]`,
      sends at most one request, and sends one when it succeeds. */
  ghost predicate SingleTasks(ids: seq<int>, tasks: seq<Report>)
  {
    |tasks| == |ids| &&
    forall k :: 0 <= k < |tasks| ==>
      tasks[k].fetched == [ids[k]] && |tasks[k].sent| <= 1 &&
      (tasks[k].failure.None? ==> |tasks[k].sent| == 1)
  }

  /** The queue with concurrency 1: the outcome of each task in list order,
      each one started after the previous one finished, stopping at the
      first failure. A task after a failure is never run. */
  function Sequential(tasks: seq<Report>): (r: Report)
    ensures r.failure.None? <==> forall k :: 0 <= k < |tasks| ==> tasks[k].failure.None?
    decreases |tasks|
  {
    if tasks == [] then Report([], [], None)
    else if tasks[0].failure.Some? then tasks[0]
    else
      assert forall k :: 1 <= k < |tasks| ==> tasks[k] == tasks[1..][k - 1];
      Prepend(tasks[0].fetched, tasks[0].sent, Sequential(tasks[1..]))
  }

  /** The waterfall for each pending number, in order. */
  function Steps(s: Setup, ids: seq<int>): seq<Report>
    decreases |ids|
  {
    if ids == [] then [] else [Step(s, ids[0])] + Steps(s, ids[1..])
  }

  /** The import of `ids` with the script's waterfall as the task. It
      reports no failure exactly when every number's step succeeds. */
  function Run(s: Setup, ids: seq<int>): (r: Report)
    ensures r.failure.None? <==> forall k :: 0 <= k < |ids| ==> Succeeds(s, ids[k])
  {
    StepsAt(s, ids);
    Sequential(Steps(s, ids))
  }

  /** Task `k` is the waterfall for `ids[k]`. */
  lemma {:induction false} StepsAt(s: Setup, ids: seq<int>)
    ensures |Steps(s, ids)| == |ids|
    ensures forall k :: 0 <= k < |ids| ==> Steps(s, ids)[k] == Step(s, ids[k])
    decreases |ids|
  {
    if ids != [] {
      StepsAt(s, ids[1..]);
      assert forall k :: 1 <= k < |ids| ==> ids[k] == ids[1..][k - 1];
    }
  }

  lemma StepsAreSingleTasks(s: Setup, ids: seq<int>)
    ensures SingleTasks(ids, Steps(s, ids))
  {
  }

  /** The tasks remaining at position `i` are the one for `ids[i]` and those after it. */
  lemma StepsUnfold(s: Setup, ids: seq<int>, i: int)
    requires 0 <= i < |ids|
    ensures Sequential(Steps(s, ids[i..])) ==
              if Step(s, ids[i]).failure.Some? then Step(s, ids[i])
              else Prepend(Step(s, ids[i]).fetched, Step(s, ids[i]).sent, Sequential(Steps(s, ids[i + 1..])))
  {
  }

  /** The tasks after the first still fit the numbers after the first. */
  lemma SingleTasksTail(ids: seq<int>, tasks: seq<Report>)
    requires SingleTasks(ids, tasks) && tasks != []
    ensures SingleTasks(ids[1..], tasks[1..])
  {
    forall k | 0 <= k < |tasks| - 1 ensures tasks[1..][k] == tasks[k + 1] && ids[1..][k] == ids[k + 1] {}
  }

  /** A queue that reports no failure ran every task and sent one request per task. */
  lemma {:induction false} SequentialCompletes(ids: seq<int>, tasks: seq<Report>)
    requires SingleTasks(ids, tasks)
    requires Sequential(tasks).failure.None?
    ensures Sequential(tasks).fetched == ids && |Sequential(tasks).sent| == |ids|
    decreases |tasks|
  {
    if tasks != [] {
      SingleTasksTail(ids, tasks);
      SequentialCompletes(ids[1..], tasks[1..]);
      assert ids == [ids[0]] + ids[1..];
    }
  }

  /** A queue that reports a failure ran a prefix of the tasks: the last one
      failed and its failure is the one reported, every earlier one
      succeeded, none after it ran, and one request was sent per earlier task
      plus whatever the failing task sent. */
  lemma {:induction false} SequentialStops(ids: seq<int>, tasks: seq<Report>)
    requires SingleTasks(ids, tasks)
    requires Sequential(tasks).failure.Some?
    ensures var r := Sequential(tasks);
            var n := |r.fetched| - 1;
            0 <= n < |ids| && r.fetched == ids[..n + 1] &&
            tasks[n].failure.Some? && r.failure == tasks[n].failure &&
            (forall k :: 0 <= k < n ==> tasks[k].failure.None?) &&
            |r.sent| == n + |tasks[n].sent|
    decreases |tasks|
  {
    if tasks[0].failure.None? {
      var rest := Sequential(tasks[1..]);
      var n := |rest.fetched|;
      assert 0 <= n - 1 < |ids| - 1 && rest.fetched == ids[1..][..n] &&
             tasks[1..][n - 1].failure.Some? && rest.failure == tasks[1..][n - 1].failure &&
             (forall k :: 0 <= k < n - 1 ==> tasks[1..][k].failure.None?) &&
             |rest.sent| == n - 1 + |tasks[1..][n - 1].sent| by {
        SingleTasksTail(ids, tasks);
        SequentialStops(ids[1..], tasks[1..]);
      }
      assert Sequential(tasks) == Prepend([ids[0]], tasks[0].sent, rest);
      assert |tasks[0].sent| == 1;
      assert tasks[n] == tasks[1..][n - 1];
      assert ids[..n + 1] == [ids[0]] + ids[1..][..n];
      forall k | 1 <= k < n ensures tasks[k].failure.None? {
        assert tasks[k] == tasks[1..][k - 1];
      }
    }
  }

  /** The k-th request sent by the queue is the one sent by the k-th task. */
  lemma {:induction false} SequentialSentAt(ids: seq<int>, tasks: seq<Report>, k: int)
    requires SingleTasks(ids, tasks)
    requires 0 <= k < |Sequential(tasks).sent|
    ensures k < |tasks| && tasks[k].sent != []
    ensures Sequential(tasks).sent[k] == tasks[k].sent[0]
    decreases |tasks|
  {
    if k > 0 {
      SingleTasksTail(ids, tasks);
      SequentialSentAt(ids[1..], tasks[1..], k - 1);
      assert tasks[1..][k - 1] == tasks[k];
    }
  }

  /** The queue runs a prefix of the tasks, and at least the first one. */
  lemma {:induction false} SequentialFetchesPrefix(ids: seq<int>, tasks: seq<Report>)
    requires SingleTasks(ids, tasks)
    ensures Sequential(tasks).fetched <= ids
    ensures ids != [] ==> Sequential(tasks).fetched != []
    decreases |tasks|
  {
    if tasks != [] && tasks[0].failure.None? {
      SingleTasksTail(ids, tasks);
      SequentialFetchesPrefix(ids[1..], tasks[1..]);
      assert ids == [ids[0]] + ids[1..];
    }
  }

  /** The import stops at the first ticket that fails to fetch, compose or
      create: that failure is reported, every earlier ticket succeeded, and
      no later ticket is fetched. */
  lemma RunStopsAtFirstFailure(s: Setup, ids: seq<int>)
    requires Run(s, ids).failure.Some?
    ensures var r := Run(s, ids);
            var n := |r.fetched| - 1;
            0 <= n < |ids| && r.fetched == ids[..n + 1] &&
            !Succeeds(s, ids[n]) && r.failure == Step(s, ids[n]).failure &&
            r.failure.value.id == ids[n] &&
            (forall k :: 0 <= k < n ==> Succeeds(s, ids[k]))
  {
    var tasks := Steps(s, ids);
    var r := Run(s, ids);
    var n := |r.fetched| - 1;
    assert r == Sequential(tasks);
    assert 0 <= n < |ids| && r.fetched == ids[..n + 1] &&
           r.failure == tasks[n].failure &&
           forall k :: 0 <= k < n ==> tasks[k].failure.None? by {
      StepsAreSingleTasks(s, ids);
      SequentialStops(ids, tasks);
    }
    assert forall k :: 0 <= k < |ids| ==> tasks[k] == Step(s, ids[k]) by {
      StepsAt(s, ids);
    }
    FailureNamesNumber(s, ids[n]);
  }

  /** The first number whose step fails ends the run: exactly the numbers
      up to it are fetched, and its failure is the one reported. */
  lemma RunFailsAtFirstFailingStep(s: Setup, ids: seq<int>, j: int)
    requires 0 <= j < |ids| && !Succeeds(s, ids[j])
    requires forall k :: 0 <= k < j ==> Succeeds(s, ids[k])
    ensures Run(s, ids).fetched == ids[..j + 1]
    ensures Run(s, ids).failure == Step(s, ids[j]).failure
  {
    RunStopsAtFirstFailure(s, ids);
  }

  /** The k-th request sent is built from the k-th number's fetched ticket
      and its composed body. */
  lemma RunSentAt(s: Setup, ids: seq<int>, k: int)
    requires 0 <= k < |Run(s, ids).sent|
    ensures k < |ids| && s.fetch(ids[k]).Some? && Compose(s.fetch(ids[k]).value).Ok?
    ensures Run(s, ids).sent[k] == RequestFor(s, s.fetch(ids[k]).value)
  {
    StepsAreSingleTasks(s, ids);
    StepsAt(s, ids);
    SequentialSentAt(ids, Steps(s, ids), k);
    StepShape(s, ids[k]);
  }

  /** When every step succeeds the run fetches every number and creates one
      issue per number, in ascending candidate order. */
  lemma RunAllSucceed(s: Setup, ids: seq<int>)
    requires forall k :: 0 <= k < |ids| ==> Succeeds(s, ids[k])
    ensures Run(s, ids).failure.None?
    ensures Run(s, ids).fetched == ids
    ensures |Run(s, ids).sent| == |ids|
  {
    StepsAreSingleTasks(s, ids);
    if Run(s, ids).failure.Some? {
      RunStopsAtFirstFailure(s, ids);
    }
    SequentialCompletes(ids, Steps(s, ids));
  }

  /** Every number of the range succeeds exactly when every number from
      `lo` to `hi` does. */
  lemma RangeSucceeds(s: Setup, lo: int, hi: int)
    ensures (forall k :: 0 <= k < |Ids(lo, hi)| ==> Succeeds(s, Ids(lo, hi)[k])) <==>
            (forall x :: lo <= x <= hi ==> Succeeds(s, x))
  {
    var ids := Ids(lo, hi);
    IdsShape(lo, hi);
    if forall k :: 0 <= k < |ids| ==> Succeeds(s, ids[k]) {
      forall x | lo <= x <= hi ensures Succeeds(s, x) {
        assert ids[x - lo] == x;
      }
    }
  }

  /** The whole script after the two listings: check the numbering, then
      import every candidate. A refusal happens before any fetch or write. */
  function Migrate(s: Setup, lighthouse: seq<Ticket>, github: seq<Issue>): (r: Report)
    ensures CheckNumbering(lighthouse, github).Err? ==>
              r == Report([], [], Some(CheckNumbering(lighthouse, github).error))
    ensures CheckNumbering(lighthouse, github).Ok? ==>
              var m := CheckNumbering(lighthouse, github).value;
              (r.failure.None? <==> forall x :: m.maxGH < x <= m.maxLH ==> Succeeds(s, x))
    ensures CheckNumbering(lighthouse, github).Ok? ==>
              var m := CheckNumbering(lighthouse, github).value;
              r.fetched != [] && r.fetched[0] == m.maxGH + 1 &&
              forall k :: 0 <= k < |r.fetched| ==> r.fetched[k] == m.maxGH + 1 + k <= m.maxLH
  {
    match CheckNumbering(lighthouse, github)
    case Err(e) => Report([], [], Some(e))
    case Ok(m) =>
      RangeSucceeds(s, m.maxGH + 1, m.maxLH);
      RunFetchesRange(s, m.maxGH + 1, m.maxLH);
      Run(s, Ids(m.maxGH + 1, m.maxLH))
  }

  /** A refused check is reported as it is, before anything is fetched. */
  lemma MigrateRefused(s: Setup, lighthouse: seq<Ticket>, github: seq<Issue>)
    requires CheckNumbering(lighthouse, github).Err?
    ensures Migrate(s, lighthouse, github) == Report([], [], Some(CheckNumbering(lighthouse, github).error))
  {
  }

  /** An accepted check imports exactly the candidate range. */
  lemma MigrateAccepted(s: Setup, lighthouse: seq<Ticket>, github: seq<Issue>)
    requires CheckNumbering(lighthouse, github).Ok?
    ensures var m := CheckNumbering(lighthouse, github).value;
            Migrate(s, lighthouse, github) == Run(s, Ids(m.maxGH + 1, m.maxLH))
  {
  }

  /** Importing a non-empty range fetches `lo`, `lo + 1`, ... and never past `hi`. */
  lemma RunFetchesRange(s: Setup, lo: int, hi: int)
    requires lo <= hi
    ensures var r := Run(s, Ids(lo, hi));
            r.fetched != [] && r.fetched[0] == lo &&
            forall k :: 0 <= k < |r.fetched| ==> r.fetched[k] == lo + k <= hi
  {
    var ids := Ids(lo, hi);
    var r := Run(s, ids);
    assert forall i :: 0 <= i < |ids| ==> ids[i] == lo + i by {
      IdsShape(lo, hi);
    }
    assert r.fetched != [] && |r.fetched| <= |ids| &&
           forall k :: 0 <= k < |r.fetched| ==> r.fetched[k] == ids[k] by {
      RunFetchesPrefix(s, ids);
    }
  }

  /** The run fetches a prefix of the numbers, and at least the first one. */
  lemma RunFetchesPrefix(s: Setup, ids: seq<int>)
    ensures Run(s, ids).fetched <= ids
    ensures ids != [] ==> Run(s, ids).fetched != []
    ensures forall k :: 0 <= k < |Run(s, ids).fetched| ==> Run(s, ids).fetched[k] == ids[k]
  {
    StepsAreSingleTasks(s, ids);
    SequentialFetchesPrefix(ids, Steps(s, ids));
  }

  /** One waterfall: fetch the ticket, compose its body, send the request. */
  method ImportOne(s: Setup, id: int) returns (r: Report)
    ensures r == Step(s, id)
  {
    var ticket := s.fetch(id);
    if ticket.None? {
      return Report([id], [], Some(FetchFailed(id)));
    }
    var body := ComposeBody(ticket.value);
    if body.Err? {
      return Report([id], [], Some(MissingBody(id)));
    }
    var req := MakeRequest(s.repoArg, s.userMap, ticket.value, body.value);
    var accepted := s.create(req);
    r := Report([id], [req], if accepted then None else Some(CreateFailed(id)));
  }

  /** The importer as a loop over the pending numbers, one task at a time. */
  method ImportAll(s: Setup, ids: seq<int>) returns (r: Report)
    ensures r == Run(s, ids)
  {
    var fetched: seq<int> := [];
    var sent: seq<Request> := [];
    var i := 0;
    while i < |ids|
      invariant 0 <= i <= |ids|
      invariant Run(s, ids) == Prepend(fetched, sent, Run(s, ids[i..]))
    {
      StepsUnfold(s, ids, i);
      var step := ImportOne(s, ids[i]);
      if step.failure.Some? {
        return Report(fetched + step.fetched, sent + step.sent, step.failure);
      }
      PrependTwice(fetched, sent, step.fetched, step.sent, Run(s, ids[i + 1..]));
      fetched, sent := fetched + step.fetched, sent + step.sent;
      i := i + 1;
    }
    assert ids[i..] == [];
    r := Report(fetched, sent, None);
  }

  /** The script end to end: numbering check, range, sequential import. */
  method MigrateAll(s: Setup, lighthouse: seq<Ticket>, github: seq<Issue>) returns (r: Report)
    ensures r == Migrate(s, lighthouse, github)
  {
    if lighthouse == [] {
      r := Report([], [], Some(NoLighthouseTickets));
      assert r == Migrate(s, lighthouse, github) by {
        assert CheckNumbering(lighthouse, github) == Err(NoLighthouseTickets);
        MigrateRefused(s, lighthouse, github);
      }
      return;
    }
    var maxLH := lighthouse[0].number;
    var maxGH := if github != [] then github[0].number else 0;
    if maxLH <= maxGH {
      r := Report([], [], Some(MoreGithubIssues));
      assert r == Migrate(s, lighthouse, github) by {
        assert maxGH == MaxGithub(github);
        assert CheckNumbering(lighthouse, github) == Err(MoreGithubIssues);
        MigrateRefused(s, lighthouse, github);
      }
      return;
    }
    ghost var accepted := Run(s, Ids(maxGH + 1, maxLH));
    assert Migrate(s, lighthouse, github) == accepted by {
      assert maxGH == MaxGithub(github);
      assert CheckNumbering(lighthouse, github) == Ok(Maxima(maxLH, maxGH));
      MigrateAccepted(s, lighthouse, github);
    }
    var tickets := BuildRange(maxGH, maxLH);
    r := ImportAll(s, tickets);
  }

  /** The queue as the script wires it. The worker's own `callback` is
      shadowed by the waterfall functions' parameters of the same name, and
      the waterfall's completion handler only logs; so the worker never
      reports completion, and a queue of concurrency 1 runs its first task
      and never dispatches another. */
  function RunAsWritten(s: Setup, ids: seq<int>): (r: Report)
    ensures |r.fetched| <= 1
  {
    if ids == [] then Report([], [], None) else Step(s, ids[0])
  }

  /** With two or more numbers that would all succeed, the queue as written
      fetches only the first and reports no failure, while the intended
      sequential import fetches them all. */
  lemma AsWrittenStallsAfterFirstTask(s: Setup, ids: seq<int>)
    requires |ids| >= 2
    requires forall k :: 0 <= k < |ids| ==> Succeeds(s, ids[k])
    ensures RunAsWritten(s, ids).failure.None?
    ensures RunAsWritten(s, ids).fetched == [ids[0]] != ids
    ensures Run(s, ids).fetched == ids
  {
    StepShape(s, ids[0]);
    RunAllSucceed(s, ids);
  }
}
