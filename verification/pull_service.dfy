/**
 * The pull-request service of the Stash driver. Each operation receives the
 * record the transport decoded (the transport itself is not part of this
 * model) and returns what the driver builds from it: the request document it
 * sends, the normalized values, and the pagination hint it writes into the
 * response envelope.
 */
module PullService {
  import opened Wrappers
  import opened Scm
  import opened StashTypes
  import opened Collaborators
  import opened Convert
  import opened Format

  /** The prefix branch names are expanded with when a pull request is opened. */
  const BranchRefPrefix: string := "refs/heads"

  /** List: the pagination hint, then one normalized pull request per decoded one. */
  method List(env: Env, res: Response, out: Prs, opts: PullRequestListOptions) returns (prs: seq<PullRequest>)
    modifies res
    ensures !out.pagination.lastPage ==> res.page == Page(1, opts.page + 1)
    ensures out.pagination.lastPage ==> res.page == old(res.page)
    ensures |prs| == |out.values|
    ensures forall i :: 0 <= i < |prs| ==> prs[i] == ConvertPullRequest(env, out.values[i])
  {
    res.SetPageHint(out.pagination.lastPage, opts.page);
    prs := ConvertPullRequests(env, out);
  }

  /** ListChanges: the pagination hint, then the decoded page handed to convertDiffstats. */
  method ListChanges<V, Change>(convertDiffstats: Paged<V> -> seq<Change>, res: Response, out: Paged<V>, opts: ListOptions)
    returns (changes: seq<Change>)
    modifies res
    ensures !out.pagination.lastPage ==> res.page == Page(1, opts.page + 1)
    ensures out.pagination.lastPage ==> res.page == old(res.page)
    ensures changes == convertDiffstats(out)
  {
    res.SetPageHint(out.pagination.lastPage, opts.page);
    changes := convertDiffstats(out);
  }

  /** ListCommits: the pagination hint, then the decoded page handed to convertCommitList. */
  method ListCommits<V, Commit>(convertCommitList: Paged<V> -> seq<Commit>, res: Response, out: Paged<V>, opts: ListOptions)
    returns (commits: seq<Commit>)
    modifies res
    ensures !out.pagination.lastPage ==> res.page == Page(1, opts.page + 1)
    ensures out.pagination.lastPage ==> res.page == old(res.page)
    ensures commits == convertCommitList(out)
  {
    res.SetPageHint(out.pagination.lastPage, opts.page);
    commits := convertCommitList(out);
  }

  /** ListComments: the decoded feed flattened, the inner loop allowed `fuel` turns. */
  method ListComments(env: Env, out: Activities, fuel: nat) returns (run: FlattenRun)
    ensures run == FlattenAsWritten(env, Filtered(out.values), fuel)
  {
    run := ConvertPullRequestCommentsList(env, out.values, fuel);
  }

  /** FindComment: the decoded comment, converted with no parent and no anchor, is always general. */
  function FindComment(env: Env, out: PullRequestComment): (c: Comment)
    ensures c.kind == GeneralKind && c.metadata == GeneralCommentMetadata
    ensures c.id == out.id && c.body == out.text
    ensures c.created == MillisToSeconds(out.createdDate) && c.updated == MillisToSeconds(out.updatedDate)
    ensures c.author == User(out.author.slug, out.author.displayName, out.author.emailAddress, env.avatarLink(out.author.emailAddress))
  {
    ConvertPullRequestComment(env, out, 0, None)
  }

  /**
   * Create: the request document copies title and body, puts both sides in the
   * caller's repository (project key = namespace, slug = name) and expands both
   * branch names under refs/heads; the decoded answer is normalized.
   */
  method Create(env: Env, repo: string, input: PullRequestInput, out: Pr) returns (sent: PrInput, pr: PullRequest)
    ensures sent.title == input.title && sent.description == input.body
    ensures sent.fromRef.repository == InputRepository(env.split(repo).1, InputProject(env.split(repo).0))
    ensures sent.toRef.repository == sent.fromRef.repository
    ensures sent.fromRef.id == env.expandRef(input.source, BranchRefPrefix)
    ensures sent.toRef.id == env.expandRef(input.target, BranchRefPrefix)
    ensures pr == ConvertPullRequest(env, out)
  {
    var (namespace, name) := env.split(repo);
    var inp := EmptyPrInput;
    inp := inp.(title := input.title);
    inp := inp.(description := input.body);
    inp := inp.(fromRef := inp.fromRef.(repository := inp.fromRef.repository.(project := InputProject(namespace))));
    inp := inp.(fromRef := inp.fromRef.(repository := inp.fromRef.repository.(slug := name)));
    inp := inp.(fromRef := inp.fromRef.(id := env.expandRef(input.source, BranchRefPrefix)));
    inp := inp.(toRef := inp.toRef.(repository := inp.toRef.repository.(project := InputProject(namespace))));
    inp := inp.(toRef := inp.toRef.(repository := inp.toRef.repository.(slug := name)));
    inp := inp.(toRef := inp.toRef.(id := env.expandRef(input.target, BranchRefPrefix)));
    sent := inp;
    pr := ConvertPullRequest(env, out);
  }

  /**
   * CreateComment: the request document carries the body as its text; the
   * decoded answer, converted with no parent and no anchor, is always general.
   */
  method CreateComment(env: Env, input: CommentInput, out: PullRequestComment) returns (sent: PullRequestCommentInput, c: Comment)
    ensures sent.text == input.body
    ensures c.kind == GeneralKind && c.metadata == GeneralCommentMetadata
    ensures c.id == out.id && c.body == out.text
    ensures c.created == MillisToSeconds(out.createdDate) && c.updated == MillisToSeconds(out.updatedDate)
    ensures c.author == User(out.author.slug, out.author.displayName, out.author.emailAddress, env.avatarLink(out.author.emailAddress))
  {
    sent := PullRequestCommentInput(text := input.body);
    c := ConvertPullRequestComment(env, out, 0, None);
  }

  /**
   * DeleteComment: deleting needs a comment version the driver does not track,
   * so every call fails with ErrNotSupported. It takes no transport, so it
   * makes no call.
   */
  function DeleteComment(repo: string, number: int, id: int): (r: Result<(), Error>)
    ensures r == Failure(ErrNotSupported)
  {
    Failure(ErrNotSupported)
  }
}
