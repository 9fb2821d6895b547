# ltg — Lighthouse to GitHub issue import, modelled in Dafny

`ltg.js` is a one-shot Node script. It reads the newest Lighthouse ticket
and the newest GitHub issue and refuses to run unless Lighthouse numbering
is ahead. It then imports tickets one at a time: fetch the ticket, compose
a GitHub issue body from it, and create the issue with the `imported`
label. This project models the deterministic core of that script and
proves properties of it:

- `Fence`: the `@@@` to three-backtick rewrite (`replace(/@@@/g, '```')`).
- `RepoPath`: the `split("/")` of the `owner/name` argument.
- `BodyComposer`: the issue body. It has a specification function and the
  script's `+=` loop over `versions.slice(1)`, proved equal to it.
- `Numbering`: the two maxima, the refusal, and the commented-out range
  builder as a loop proved equal to a range function.
- `CreateRequest`: the `gh.issues.create` payload.
- `Importer`: the sequential import. It stops at the first failure and
  takes the two remote services as function parameters. It also holds
  the as-written queue behaviour (see Findings).

The files are `outcomes.dfy`, `fence.dfy`, `repo_path.dfy`, `tickets.dfy`,
`body_composer.dfy`, `numbering.dfy`, `create_request.dfy` and
`importer.dfy`.

A later, more complete variant of the tool is not part of this model.
That variant edits closed issues, maps milestones, adds state labels,
warns on numbering drift, and treats a missing body as empty. This model
follows `ltg.js` as written. So a missing `latest_body`, or a missing body
on a later version, is a failure (the TypeError that `.replace` raises on
`undefined`). A missing body on the first version is never read.

## Model

| member | source | states |
|---|---|---|
| `Fence.ReplaceMarkers` | ltg.js:76 | the global replace keeps the string's length |
| `Fence.ReplaceAligned` | ltg.js:76 | every character other than `@` is kept in place; each output character is the input character at that position or a backtick; an `@` survives only where the input had one |
| `Fence.ReplaceLeavesNoMarker` | ltg.js:76 | after the replace no `@@@` is left anywhere (overlapping runs such as `@@@@` included) |
| `Fence.ReplaceKeepsUnmarked` | ltg.js:82 | a body without `@@@` passes through unchanged |
| `Fence.ReplaceFixedIff` | ltg.js:76 | the replace leaves a string unchanged exactly when the string holds no `@@@` |
| `Fence.ReplaceIdempotent` | ltg.js:82 | replacing twice gives the same as replacing once |
| `RepoPath.Split` | ltg.js:43-44 | `split("/")` yields at least one part, and no part holds a `/` |
| `RepoPath.SplitJoin` | ltg.js:43-44 | joining the parts with `/` gives back the argument; there is one more part than there are slashes |
| `RepoPath.ParseRepository` | ltg.js:86-87 | the user is a `/`-free prefix of the argument; the repo is present exactly when the argument has a `/`, and then `user/repo` is the whole argument or is followed in it by a further `/`; with no `/` the user is the whole argument |
| `RepoPath.ParseOwnerSlashName` | ltg.js:43-44 | for `owner/name` with `/`-free parts, user and repo are exactly `owner` and `name` |
| `BodyComposer.Header` | ltg.js:73-75 | the header opens with the `[Original issue](url)` link line, a blank line and `Reported by: ` with the creator, and ends with the `---` rule |
| `BodyComposer.VersionBlock` | ltg.js:80-82 | a later version's block opens with `author @ date`, a newline and the `---` rule, is ten characters longer than author, date and body together, and ends with a blank line |
| `BodyComposer.Later` | ltg.js:79 | `slice(1)` has one element fewer than `versions` (none for an empty list), and element `i` is version `i + 1` |
| `BodyComposer.Compose` | ltg.js:72-83 | a failure is always the missing-body failure of the ticket's own number |
| `BodyComposer.BlocksShape` | ltg.js:79-83 | one block per rendered version, block `i` rendering version `i` |
| `BodyComposer.ComposeBlocks` | ltg.js:78-83 | the body has exactly `max(0, \|versions\| - 1)` blocks in version order, block `i` rendering version `i + 1`; the body is the header, the rewritten latest body, a blank line and the blocks |
| `BodyComposer.ComposeStartsWithHeader` | ltg.js:73-76 | the body starts with the link line, the `Reported by:` line, the `---` rule, the rewritten latest body and a blank line |
| `BodyComposer.ComposeFailsIff` | ltg.js:76-82 | composing fails exactly when the latest body or the body of some version after the first is absent |
| `BodyComposer.ComposeIgnoresFirstVersion` | ltg.js:78-79 | replacing the first version by any other leaves the result unchanged |
| `BodyComposer.BlockUnmarked` | ltg.js:80-82 | a version block holds no `@@@` when the version's author and date hold none, whatever its body |
| `BodyComposer.ComposedBodyHasNoMarker` | ltg.js:72-83 | when the url, names and dates copied into the body hold no `@@@`, the whole composed body holds none: every `@@@` of the latest and the later bodies became a fence |
| `BodyComposer.AppendBlocks` | ltg.js:79-83 | the `+=` loop over `versions.slice(1)` appends exactly the blocks of the later versions, in order, and fails exactly when one of them has no body |
| `BodyComposer.ComposeBody` | ltg.js:71-83 | the script's body builder, header appends and then the loop, returns exactly `Compose` of the ticket, failure included |
| `Numbering.MaxLighthouse` | ltg.js:55 | the head ticket's number; reading it from an empty listing is a failure |
| `Numbering.MaxGithub` | ltg.js:56 | 0 for an empty listing, otherwise the head issue's number |
| `Numbering.MaxGithubIsMaximum` | ltg.js:45-56 | on a newest-first listing of positive numbers, the value read bounds every issue number and is 0 exactly when there is no issue |
| `Numbering.CheckNumbering` | ltg.js:55-62 | import proceeds exactly when there is a Lighthouse ticket and its number exceeds the GitHub maximum; on success the maxima are the head ticket's number and the GitHub maximum; an empty Lighthouse listing fails with its own failure, and any other refusal is the "more GitHub issues" error |
| `Numbering.Ids` | ltg.js:109-112 | the range from `lo` to `hi` has `hi - lo + 1` numbers, none when `lo > hi` |
| `Numbering.IdsShape` | ltg.js:110-111 | the range `lo..hi` has `hi - lo + 1` elements (0 if `lo > hi`); element `i` is `lo + i`, so it is ascending with no gaps and holds exactly the numbers in between |
| `Numbering.CandidatesNonEmpty` | ltg.js:60-62 | when the check passes there are `maxLH - maxGH > 0` candidates, from `maxGH + 1` to `maxLH` |
| `Numbering.BuildRange` | ltg.js:109-112 | the counting loop pushes exactly the range `maxGH + 1 .. maxLH` |
| `CreateRequest.Assignee` | ltg.js:91 | the assignee is present exactly when the ticket has an assignee id that the user map holds, and is then the mapped account |
| `CreateRequest.MakeRequest` | ltg.js:85-92 | the title is the ticket's title and the body the composed body; the labels are exactly `["imported"]`; the milestone is passed through; the assignee is looked up in the user map; user and repo are the two parts `ParseRepository` takes from the argument |
| `CreateRequest.MakeRequestRepository` | ltg.js:86-87 | for `owner/name`, the request's user and repo are `owner` and `name` |
| `Importer.Step` | ltg.js:65-96 | one waterfall fetches exactly its own number, and any failure is the fetch, missing-body or create failure of that number |
| `Importer.StepShape` | ltg.js:65-96 | a waterfall succeeds exactly when the ticket was fetched, its body composed and GitHub accepted the request built from them. It fetches its own number and sends at most one request. On success it sent exactly one, built from the fetched ticket and its composed body. A failure names its number |
| `Importer.Sequential` | ltg.js:64-102 | the concurrency-1 queue reports no failure exactly when none of its tasks fails |
| `Importer.Run` | ltg.js:64-102 | the import reports no failure exactly when the waterfall of every pending number succeeds |
| `Importer.StepsAt` | ltg.js:64-102 | the queue holds one task per pending number, in order, task `k` being the waterfall for number `k` |
| `Importer.SequentialCompletes` | ltg.js:64-102 | a concurrency-1 queue that reports no failure ran every task in order and sent one request per task |
| `Importer.SequentialStops` | ltg.js:64-102 | a concurrency-1 queue that reports a failure ran a prefix of its tasks. The last task run failed and its failure is the one reported. Every earlier task succeeded, and no later task ran |
| `Importer.SequentialSentAt` | ltg.js:64-102 | the k-th request the queue sent is the request sent by its k-th task |
| `Importer.SequentialFetchesPrefix` | ltg.js:64-102 | the queue runs a prefix of its tasks, and at least the first one when there is one |
| `Importer.RunStopsAtFirstFailure` | ltg.js:64-102 | the import stops at the first number whose fetch, compose or create fails. That failure, naming that number, is reported. Every earlier number succeeded, and nothing later was fetched |
| `Importer.RunFailsAtFirstFailingStep` | ltg.js:64-102 | when number `j` is the first whose waterfall fails, the import fetches exactly the numbers up to `j` and reports that waterfall's failure |
| `Importer.RunSentAt` | ltg.js:85-102 | the k-th request sent is built from the k-th number's ticket and its composed body |
| `Importer.RunAllSucceed` | ltg.js:64-102 | when every step succeeds there is no failure, every number is fetched and one issue request is sent per number |
| `Importer.RunFetchesPrefix` | ltg.js:64-102 | numbers are fetched in list order, as a prefix of the list, starting with the first |
| `Importer.RangeSucceeds` | ltg.js:109-112 | every number in the range succeeds exactly when every integer from `lo` to `hi` does |
| `Importer.Migrate` | ltg.js:55-115 | a refused check is reported as it is, before anything is fetched or sent. An accepted one fetches `maxGH + 1`, `maxGH + 2`, … and never past `maxLH`, and reports no failure exactly when every number from `maxGH + 1` to `maxLH` imports |
| `Importer.RunFetchesRange` | ltg.js:102-112 | importing a non-empty range `lo..hi` fetches `lo`, `lo + 1`, … in order and never past `hi` |
| `Importer.ImportOne` | ltg.js:65-96 | the waterfall method (fetch, compose with the loop, create) returns exactly the step's report |
| `Importer.ImportAll` | ltg.js:64-102 | the loop over pending numbers, one task at a time, produces exactly the sequential stop-on-first-failure report |
| `Importer.MigrateAll` | ltg.js:55-62 | the check, range and loop together produce exactly the specified migration report |
| `Importer.RunAsWritten` | ltg.js:64-102 | the queue as wired runs at most one task |
| `Importer.AsWrittenStallsAfterFirstTask` | ltg.js:93-102 | with two or more numbers that would all succeed, the queue as wired fetches only the first and reports no failure, while the sequential import fetches them all |

## Left out

- Command-line parsing with `optimist` and loading the user map with `require` (ltg.js:3-14, 24). The user map is an input `map<int, string>`, and the repository argument is an input string.
- The Lighthouse and GitHub clients, authentication and every network call (ltg.js:18-48, 67-69, 85-95). Listings are input sequences. Fetching is a function from a number to an optional ticket. Creating is a function from a request to success or failure. The created issue's data is not read by the script, so it is not modelled.
- The `sort:number-` query and the `per_page`/`sort`/`direction` options belong to the remote services. The model reads the head of each listing as the script does. `Numbering.MaxGithubIsMaximum` states what that head means when the listing is newest first. The GitHub listing uses that service's default state filter. Issues outside it are not seen by the script, and not by the model either.
- The `async.parallel`/`async.queue`/`async.waterfall` machinery and its concurrency. Only the resulting sequential order is modelled.
- Console logging and `q.drain` (ltg.js:58, 99-100, 104-106).
- The hard-coded `q.push(922)` (ltg.js:115). The model imports the commented-out range instead.
- JavaScript's rendering of `undefined` and numbers inside string concatenation. Ticket fields that are only concatenated (url, names, timestamps) are taken as the text they render to.
- JSON object keys are strings, so `userMap[7]` reads key `"7"`. The map is keyed by integers here.
- A thrown error ends the Node process. The model returns a failure value in its report instead.

## Findings

| source | as written | input that shows it | evidently intended | confidence | as-written member | corrected member |
|---|---|---|---|---|---|---|
| ltg.js:64-102 | the queue worker `importer(task, callback)` never calls its `callback`: the waterfall steps' own `callback` parameters shadow it, and the completion handler (ltg.js:98-101) only logs. A concurrency-1 `async.queue` waits for that call before it dispatches the next task | the range `[56, 57, 58]` with every ticket present: only 56 is imported, the queue never drains, and no error is reported | each finished task signals completion, so the next number is imported, and the first failure stops the run | medium; not executed; relies on `async.queue` waiting for the worker's callback. Latent in the file as written, because only one task is pushed | `Importer.RunAsWritten`, `Importer.AsWrittenStallsAfterFirstTask` | `Importer.ImportAll`, `Importer.RunStopsAtFirstFailure` |
