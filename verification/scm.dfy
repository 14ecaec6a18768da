/**
 * The host-agnostic values of the scm package that the Stash driver produces:
 * pull requests, comments with their kind-specific metadata, the inputs callers
 * pass in, and the response envelope that carries the pagination hint.
 */
module Scm {

  /** A git reference: branch name, full ref path and commit sha. */
  datatype Reference = Reference(name: string, path: string, sha: string)

  /** A user as the normalized model shows it. */
  datatype User = User(login: string, name: string, email: string, avatar: string)

  /**
   * A normalized pull request. Timestamps are whole seconds since the epoch;
   * `closed` and `merged` are two independent flags.
   */
  datatype PullRequest = PullRequest(
    number: int,
    title: string,
    body: string,
    sha: string,
    merge: string,
    ref: string,
    source: string,
    target: string,
    fork: string,
    link: string,
    closed: bool,
    merged: bool,
    created: int,
    updated: int,
    head: Reference,
    base: Reference,
    author: User)

  /** The metadata attached to a comment, one variant per comment kind. */
  datatype CommentMetadata =
    | GeneralCommentMetadata
    | CodeCommentMetadata(path: string, line: int, lineSpan: int, sourceSha: string, mergeBaseSha: string)
    | ReplyCommentMetadata(parentId: int)

  /** The three kind tags a comment can carry. */
  const GeneralKind: string := "comment"
  const CodeKind: string := "code-comment"
  const ReplyKind: string := "reply-comment"

  /** A normalized comment; `kind` is the comment's type tag. */
  datatype Comment = Comment(
    id: int,
    body: string,
    created: int,
    updated: int,
    author: User,
    kind: string,
    metadata: CommentMetadata)

  /** What a caller supplies to open a pull request. */
  datatype PullRequestInput = PullRequestInput(title: string, body: string, source: string, target: string)

  /** What a caller supplies to post a comment. */
  datatype CommentInput = CommentInput(body: string)

  /** The page a caller asks for in a list call (the only option the driver reads). */
  datatype ListOptions = ListOptions(page: int)

  /** The options of a pull-request list call (the only option the driver reads). */
  datatype PullRequestListOptions = PullRequestListOptions(page: int)

  /** The errors the driver itself reports. */
  datatype Error = ErrNotSupported

  /** The pagination hint of a response: index of the first page and of the next one. */
  datatype Page = Page(first: int, next: int)

  /** The response envelope the transport returns and the driver updates in place. */
  class Response {
    var page: Page

    constructor (page: Page)
      ensures this.page == page
    {
      this.page := page;
    }

    /**
     * The pagination hint a list call applies after decoding: when the decoded
     * envelope says this is not the last page, the first page is 1 and the next
     * page is the requested one plus one; on the last page nothing changes.
     */
    method SetPageHint(lastPage: bool, requested: int)
      modifies this
      ensures !lastPage ==> page.first == 1 && page.next == requested + 1
      ensures lastPage ==> page == old(page)
    {
      if !lastPage {
        page := page.(first := 1);
        page := page.(next := requested + 1);
      }
    }
  }
}
