/**
 * The pre-flight numbering check: the newest Lighthouse ticket number must
 * exceed the newest GitHub issue number, and the tickets to import are the
 * numbers in between, ascending.
 */
module Numbering {
  import opened Outcomes
  import opened Tickets

  /** `results.lighthouse[0].number`: the head of a one-ticket listing sorted
      by number, descending. Reading it from an empty listing is a TypeError. */
  function MaxLighthouse(head: seq<Ticket>): (r: Result<int>)
    ensures r.Err? <==> head == []
    ensures r.Err? ==> r.error == NoLighthouseTickets
    ensures r.Ok? ==> r.value == head[0].number
  {
    if head == [] then Err(NoLighthouseTickets) else Ok(head[0].number)
  }

  /** `results.github[0] ? results.github[0].number : 0`. */
  function MaxGithub(head: seq<Issue>): (r: int)
    ensures head == [] ==> r == 0
    ensures head != [] ==> r == head[0].number
  {
    if head == [] then 0 else head[0].number
  }

  /** The listing is ordered newest first, as the script asks of GitHub. */
  predicate NewestFirst(issues: seq<Issue>)
  {
    forall i, j :: 0 <= i < j < |issues| ==> issues[j].number <= issues[i].number
  }

  /** On a newest-first listing of positive numbers the value read is the
      largest issue number, and 0 exactly when there is no issue. */
  lemma MaxGithubIsMaximum(issues: seq<Issue>)
    requires NewestFirst(issues)
    requires forall i :: 0 <= i < |issues| ==> issues[i].number > 0
    ensures forall i :: 0 <= i < |issues| ==> issues[i].number <= MaxGithub(issues)
    ensures MaxGithub(issues) == 0 <==> issues == []
  {
  }

  /** The two maxima, or the refusal that is thrown before any write. */
  datatype Maxima = Maxima(maxLH: int, maxGH: int)

  function CheckNumbering(lighthouse: seq<Ticket>, github: seq<Issue>): (r: Result<Maxima>)
    ensures r.Ok? <==> lighthouse != [] && MaxGithub(github) < lighthouse[0].number
    ensures r.Ok? ==> r.value == Maxima(lighthouse[0].number, MaxGithub(github))
    ensures r.Ok? ==> r.value.maxGH < r.value.maxLH
    ensures lighthouse == [] ==> r == Err(NoLighthouseTickets)
    ensures lighthouse != [] && github == [] ==> (r.Ok? <==> lighthouse[0].number > 0)
    ensures r.Err? && lighthouse != [] ==> r.error == MoreGithubIssues
  {
    match MaxLighthouse(lighthouse)
    case Err(e) => Err(e)
    case Ok(maxLH) =>
      var maxGH := MaxGithub(github);
      if maxLH <= maxGH then Err(MoreGithubIssues) else Ok(Maxima(maxLH, maxGH))
  }

  /** The numbers `lo, lo + 1, ..., hi`. */
  function Ids(lo: int, hi: int): (r: seq<int>)
    ensures |r| == if lo > hi then 0 else hi - lo + 1
    decreases hi - lo
  {
    if lo > hi then [] else [lo] + Ids(lo + 1, hi)
  }

  /** The range holds `hi - lo + 1` numbers (none when `lo > hi`), the i-th
      being `lo + i`: ascending, without gaps, exactly the numbers in between. */
  lemma {:induction false} IdsShape(lo: int, hi: int)
    ensures |Ids(lo, hi)| == if lo > hi then 0 else hi - lo + 1
    ensures forall i :: 0 <= i < |Ids(lo, hi)| ==> Ids(lo, hi)[i] == lo + i
    ensures forall x :: x in Ids(lo, hi) <==> lo <= x <= hi
    decreases hi - lo
  {
    if lo <= hi {
      IdsShape(lo + 1, hi);
      assert forall x :: x in Ids(lo, hi) <==> x == lo || x in Ids(lo + 1, hi);
    }
  }

  /** When the check passes there are `maxLH - maxGH` candidates, the first
      being `maxGH + 1` and the last `maxLH`. */
  lemma CandidatesNonEmpty(lighthouse: seq<Ticket>, github: seq<Issue>)
    requires CheckNumbering(lighthouse, github).Ok?
    ensures var m := CheckNumbering(lighthouse, github).value;
            var ids := Ids(m.maxGH + 1, m.maxLH);
            |ids| == m.maxLH - m.maxGH > 0 && ids[0] == m.maxGH + 1 && ids[|ids| - 1] == m.maxLH
  {
    var m := CheckNumbering(lighthouse, github).value;
    IdsShape(m.maxGH + 1, m.maxLH);
  }

  /** The commented-out builder: push `maxGH + 1` up to `maxLH` in a counting loop. */
  method BuildRange(maxGH: int, maxLH: int) returns (tickets: seq<int>)
    ensures tickets == Ids(maxGH + 1, maxLH)
  {
    tickets := [];
    var start, end := maxGH + 1, maxLH;
    while start <= end
      invariant tickets + Ids(start, end) == Ids(maxGH + 1, end)
      decreases end - start
    {
      tickets := tickets + [start];
      start := start + 1;
    }
  }
}
