/**
 * The raw documents of the Stash (Bitbucket Server) REST API as the driver
 * decodes them: users, pull requests, comments, comment anchors and the
 * activity feed. Fields the driver never reads and whose shape is open
 * (reviewers, participants, tasks, diffs) are not represented.
 */
module StashTypes {

  /** An entry of a link collection, represented by its target. */
  datatype Link = Link(href: string)

  /** A Stash user. */
  datatype Author = Author(
    name: string,
    emailAddress: string,
    id: int,
    displayName: string,
    active: bool,
    slug: string,
    userType: string,
    selfLinks: seq<Link>)

  /** The project that owns a repository, identified by its key. */
  datatype Project = Project(key: string)

  /** A repository, identified by its slug inside its project. */
  datatype Repository = Repository(slug: string, project: Project)

  /** One side of a pull request: the ref, its short name, its tip and its repository. */
  datatype PrRef = PrRef(id: string, displayId: string, latestCommit: string, repository: Repository)

  /** The author entry of a pull request. */
  datatype PrAuthor = PrAuthor(user: Author, role: string, approved: bool, status: string)

  /** The merge commit recorded in a pull request's properties. */
  datatype MergeCommit = MergeCommit(id: string, displayId: string)

  /** A pull request as the API returns it; dates are milliseconds since the epoch. */
  datatype Pr = Pr(
    id: int,
    version: int,
    title: string,
    description: string,
    state: string,
    open: bool,
    closed: bool,
    createdDate: int,
    updatedDate: int,
    fromRef: PrRef,
    toRef: PrRef,
    locked: bool,
    author: PrAuthor,
    selfLinks: seq<Link>,
    mergeCommit: MergeCommit)

  /** The paging envelope of a list response. */
  datatype Pagination = Pagination(lastPage: bool)

  /** A page of pull requests. */
  datatype Prs = Prs(pagination: Pagination, values: seq<Pr>)

  /** A page of some other collection (changes, commits) whose values the driver hands on. */
  datatype Paged<V> = Paged(pagination: Pagination, values: V)

  /** The project and slug of a repository named in a create request. */
  datatype InputProject = InputProject(key: string)
  datatype InputRepository = InputRepository(slug: string, project: InputProject)

  /** One side of a create request: the full ref id and the repository. */
  datatype InputRef = InputRef(id: string, repository: InputRepository)

  /** The document sent to open a pull request. */
  datatype PrInput = PrInput(title: string, description: string, fromRef: InputRef, toRef: InputRef)

  /** A create request with every field at its zero value, as Go's `new` makes it. */
  const EmptyPrInput: PrInput :=
    PrInput("", "", InputRef("", InputRepository("", InputProject(""))), InputRef("", InputRepository("", InputProject(""))))

  /** The code location a comment is attached to. */
  datatype CommentAnchor = CommentAnchor(
    fromHash: string,
    toHash: string,
    line: int,
    lineType: string,
    fileType: string,
    path: string,
    diffType: string,
    orphaned: bool)

  /** A comment with its direct replies; dates are milliseconds since the epoch. */
  datatype PullRequestComment = PullRequestComment(
    repositoryId: int,
    id: int,
    version: int,
    text: string,
    author: Author,
    createdDate: int,
    updatedDate: int,
    comments: seq<PullRequestComment>,
    editable: bool,
    deletable: bool)

  /** The document sent to post a comment. */
  datatype PullRequestCommentInput = PullRequestCommentInput(text: string)

  /** A comment activity of the feed, with the anchor it carries. */
  datatype PrCommentActivity = PrCommentActivity(
    id: int,
    createdDate: int,
    user: Author,
    action: string,
    commentAction: string,
    comment: PullRequestComment,
    anchor: CommentAnchor)

  /**
   * An entry of the activity feed: either a comment activity or any other kind
   * of entry (merges, reviewer changes, ...), which the driver skips.
   */
  datatype Entry = CommentActivity(activity: PrCommentActivity) | Other

  /** A page of the activity feed. */
  datatype Activities = Activities(pagination: Pagination, values: seq<Entry>)

  /** The action that marks a feed entry as a posted comment. */
  const Commented: string := "COMMENTED"
}
