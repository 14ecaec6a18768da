# Stash pull-request translator

A Dafny model of the pull-request layer of go-scm's Stash (Bitbucket Server)
driver, `scm/driver/stash/pr.go`. The driver receives vendor JSON records for
pull requests, comments and the pull-request activity feed, and turns them into
go-scm's normalized values. The model covers:

- the normalizer of pull requests (`convertPullRequest`, `convertPullRequests`);
- the comment classifier (`convertPullRequestComment`): reply, then code comment, then general;
- the activity-feed filter (`filterOutComments`), with the feed as a sum type
  `Entry = CommentActivity(...) | Other` in place of Go's type assertion;
- the comment flattener (`convertPullRequestCommentsList`), including the inner
  loop that never ends once a comment has a reply;
- the pagination hint that `List`, `ListChanges` and `ListCommits` write into the
  response envelope in place;
- the request documents that `Create` and `CreateComment` build;
- `DeleteComment`, which always fails with `ErrNotSupported`.

Files, one module each: `wrappers.dfy` (Option, Result), `scm.dfy` (the
normalized values and the `Response` class), `stash_types.dfy` (the raw
documents), `collaborators.dfy` (helpers defined outside pr.go, passed in as
functions), `format.dfy` (Go's truncating division and `%d`), `convert.dfy`
(the translator), `pull_service.dfy` (the service operations).

Two behaviours of the code are kept as written:

- The flattener's inner loop never shrinks its child list, so it repeats the
  first reply forever. The dead `if len(childComments) == 0 { break }` inside
  that loop shows the list was meant to shrink, so that each reply is emitted
  once. The model keeps the loop as written and states that it does not
  terminate (see Findings).
- On the last page the list calls leave the page fields as the transport set
  them. The model states exactly that.

## Model

| member | source | states |
|---|---|---|
| `Format.MillisToSeconds` | scm/driver/stash/pr.go:239-240 | seconds are the milliseconds divided by 1000 truncated toward zero: the dropped remainder is under a second and has the sign of the input |
| `Format.MillisToSecondsUnique` | scm/driver/stash/pr.go:370-371 | the truncation contract fixes the number of seconds uniquely |
| `Format.MillisToSecondsExamples` | scm/driver/stash/pr.go:239 | 1 600 000 000 000 ms is second 1 600 000 000; -1500 ms is -1, where floor division would give -2 |
| `Format.ParseDecimalRoundTrip` | scm/driver/stash/pr.go:232 | reading back the `%d` rendering of any integer, negative ones included, gives that integer |
| `Format.DecimalInjective` | scm/driver/stash/pr.go:232 | distinct integers have distinct `%d` renderings |
| `Format.ParseRefRoundTrip` | scm/driver/stash/pr.go:232 | the number can be read back from `refs/pull-requests/<ID>/from` |
| `Format.PullRequestRefInjective` | scm/driver/stash/pr.go:232 | two synthetic refs are equal only for equal numbers |
| `Convert.ConvertPullRequest` | scm/driver/stash/pr.go:221-258 | number, title, body and merge commit copied; the ref is exactly `refs/pull-requests/<ID>/from`; merged exactly when the state is MERGED; closed is the raw flag; head and base from FromRef and ToRef with source, target and sha consistent with them; fork from project key and slug; link from the self links; author login, name and email from the user, avatar from its email; dates truncated to seconds |
| `Convert.ConvertedRefNamesNumber` | scm/driver/stash/pr.go:232 | the number of a normalized pull request is read back from its ref |
| `Convert.MergedClosedIndependent` | scm/driver/stash/pr.go:237-238 | changing the closed flag leaves merged alone and changing the state leaves closed alone |
| `Convert.ConvertedRefsDistinct` | scm/driver/stash/pr.go:232 | pull requests with different numbers get different refs |
| `Convert.ConvertPullRequests` | scm/driver/stash/pr.go:213-219 | same length as the page, element i is the conversion of value i |
| `Convert.ConvertPullRequestComment` | scm/driver/stash/pr.go:346-381 | a non-zero parent gives reply-comment with that parent whatever the anchor; else an anchor with a non-empty path gives code-comment with path, line, span 1, FromHash and ToHash; else comment with general metadata; kind tag and metadata agree; id, text, author copied; dates truncated |
| `Convert.ReplyIgnoresAnchor` | scm/driver/stash/pr.go:361-366 | a reply is classified the same under any two anchors |
| `Convert.EmptyPathIsNoAnchor` | scm/driver/stash/pr.go:350 | an anchor with an empty path classifies like a nil anchor |
| `Convert.Filtered` | scm/driver/stash/pr.go:315-326 | the kept activities are never more than the feed entries |
| `Convert.KeptIndices` | scm/driver/stash/pr.go:319-320 | the kept positions ascend, each holds a COMMENTED comment activity, and every such position is listed |
| `Convert.FilteredIsSubsequence` | scm/driver/stash/pr.go:317-323 | the output is the feed at the kept positions, in feed order |
| `Convert.FilteredMembership` | scm/driver/stash/pr.go:319-322 | an activity is in the output exactly when the feed holds it as a comment activity with action COMMENTED |
| `Convert.FilterOutComments` | scm/driver/stash/pr.go:315-326 | the loop returns exactly the filtered activities |
| `Convert.TopLevel` | scm/driver/stash/pr.go:333 | a top-level comment, whose anchor pointer is never nil, is code-comment when the anchor path is non-empty and general otherwise, never a reply |
| `Convert.FlattenChildless` | scm/driver/stash/pr.go:331-342 | when no filtered comment has replies, the loop ends with one top-level comment per activity, in order |
| `Convert.FlattenDiverges` | scm/driver/stash/pr.go:335-341 | when activity j is the first whose comment has a reply, every budget runs out: the output is the top-level comments up to j, then j's first reply once per turn |
| `Convert.FlattenFinishesIffChildless` | scm/driver/stash/pr.go:328-344 | the loop ends exactly when no filtered comment has a reply |
| `Convert.FlattenAsWritten` | scm/driver/stash/pr.go:328-344 | the as-written reference: a finished run has one comment per activity; a run out of fuel has emitted more comments than the budget |
| `Convert.ConvertPullRequestCommentsList` | scm/driver/stash/pr.go:328-344 | the nested loops compute the as-written flattening of the filtered feed |
| `Convert.FlattenIntended` | scm/driver/stash/pr.go:328-344 | the corrected flattening yields each comment and each of its direct replies once |
| `Convert.FlattenIntendedSplit` | scm/driver/stash/pr.go:331-341 | in the corrected flattening, activity k's block (its comment, then its replies) sits between the blocks of the activities before and after it |
| `Convert.FlattenIntendedOrder` | scm/driver/stash/pr.go:333-340 | activity k's comment sits at the offset of all comments before it, and its direct replies follow it at once, in order |
| `Convert.FlattenAgreesWhenChildless` | scm/driver/stash/pr.go:328-344 | where the loop as written ends, it yields exactly the corrected list |
| `Convert.FlattenScenario` | scm/driver/stash/pr.go:329-341 | the feed [A with two replies, other entry, B] keeps A and B; the corrected list is A, its two replies, B; the loop as written never ends and repeats A's first reply |
| `Scm.Response.SetPageHint` | scm/driver/stash/pr.go:40-43 | not on the last page: first is 1 and next is the requested page plus one; on the last page the page is unchanged |
| `PullService.List` | scm/driver/stash/pr.go:35-45 | the pagination hint, and one normalized pull request per decoded one, in order |
| `PullService.ListChanges` | scm/driver/stash/pr.go:47-57 | the pagination hint, and the changes from convertDiffstats |
| `PullService.ListCommits` | scm/driver/stash/pr.go:67-77 | the pagination hint, and the commits from convertCommitList |
| `PullService.ListComments` | scm/driver/stash/pr.go:59-65 | the comments are the as-written flattening of the decoded feed |
| `PullService.FindComment` | scm/driver/stash/pr.go:27-33 | a found comment is always general, with its id, text, author and truncated dates |
| `PullService.Create` | scm/driver/stash/pr.go:93-108 | title and body copied; both sides in the caller's repository (key = namespace, slug = name); both branch names expanded under refs/heads; the answer normalized |
| `PullService.CreateComment` | scm/driver/stash/pr.go:110-117 | the request text is the body; the created comment is always general, with its id, text, author and truncated dates |
| `PullService.DeleteComment` | scm/driver/stash/pr.go:119-126 | every call fails with ErrNotSupported, and it is given no transport to call |

## Left out

- The transport `do`, `context.Context`, HTTP and JSON decoding: every operation takes the record the transport decoded as a parameter. Transport errors, which the Go code passes through unchanged, are not modelled.
- URL path formatting with `fmt.Sprintf` and `encodeListOptionsV2`: request plumbing only.
- `Find`, `Merge` and `Close`: `Find` only applies `ConvertPullRequest`; `Merge` and `Close` translate nothing.
- `avatarLink`, `extractSelfLink`, `scm.Split`, `scm.Join`, `scm.ExpandRef`, `convertDiffstats` and `convertCommitList` are defined outside pr.go. They are parameters (the `Env` value, or function arguments) about which nothing is assumed.
- Because `scm.ExpandRef` is a parameter, the model does not prove that `main` becomes `refs/heads/main`. Nor does it prove that the server's answer echoes the short names back.
- The open `interface{}` payloads `Reviewers`, `Participants`, `Diff` and `Tasks`: the translator never reads them.
- The `link` and `repository` types are defined outside pr.go. A link is kept as its href, and a repository as its slug and project key, which are the only fields read.
- `scm.Page`, `scm.ListOptions` and `scm.PullRequest` have fields that pr.go never touches. Only the page's first and next indices, the requested page, and the pull-request fields the driver sets are represented.
- `time.Time`: timestamps are whole seconds since the epoch.
- Go integer widths: ids and dates are unbounded integers. Dividing an int64 by 1000 cannot overflow, so that part is exact. The wrap-around of `opts.Page + 1` at the largest Go `int` is not modelled.
- A nil response envelope from the transport (which the hint would dereference) and nil entries in `Values` (which `convertPullRequest` would dereference) are not modelled. Records are always present.
- Feed decoding: the model takes the feed as already-typed entries. The `Entry` sum type replaces the type assertion on `interface{}` values (see the note under Findings).
- `ConvertPullRequestCommentsList`: the Go inner loop does not terminate, so the model gives it a budget, `fuel`, of turns. An `OutOfFuel` result stands for the real function never returning.

## Findings

| source | as written | input that shows it | evidently intended | confidence | as-written member | corrected member |
|---|---|---|---|---|---|---|
| scm/driver/stash/pr.go:335-341 | the inner loop tests `len(childComments) > 0` but never removes an element, so it appends the first reply forever | a feed whose first COMMENTED activity has a comment with two replies, followed by another entry and a reply-less activity | emit each direct reply once, parented to the comment, then go on to the next activity | high (not executed) | `Convert.FlattenScenario` | `Convert.FlattenIntended` |

`ConvertPullRequestCommentsList` and `ListComments` keep the as-written
behaviour because they model the code. `FlattenIntended` is the corrected
definition. `FlattenAgreesWhenChildless` proves the two agree wherever the
code ends.

Note on reaching the loop. `ListComments` decodes the feed into
`Activities.Values`, a `[]interface{}`. Under `encoding/json`'s documented
behaviour, each object in such a slice becomes a `map[string]interface{}`, never
a `PRCommentActivity`. So the type assertion at scm/driver/stash/pr.go:319 would
never hold, and `ListComments` would return an empty list for every feed. That
would also keep the loop above from being reached. This depends on the
transport's `do`, which is not part of this model. It is therefore recorded
here as a note, not as a finding, and the model takes typed entries.
