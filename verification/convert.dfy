/**
 * The translator of the Stash driver: raw pull requests into normalized pull
 * requests, raw comments into classified comments, and the activity feed into
 * a flat comment list.
 */
module Convert {
  import opened Wrappers
  import opened Scm
  import opened StashTypes
  import opened Collaborators
  import opened Format

  /** The state string of a merged pull request. */
  const MergedState: string := "MERGED"

  // ---------------------------------------------------------------------------
  // Pull requests
  // ---------------------------------------------------------------------------

  /**
   * convertPullRequest. The number, title and body are copied; the ref is made
   * up from the number; head and base come from the two sides of the raw pull
   * request; `merged` comes from the state string alone and `closed` from the
   * raw flag alone; dates are truncated to seconds.
   */
  function ConvertPullRequest(env: Env, from: Pr): (pr: PullRequest)
    ensures pr.number == from.id && pr.title == from.title && pr.body == from.description
    ensures pr.ref == PullRequestRef(from.id)
    ensures pr.link == env.extractSelfLink(from.selfLinks)
    ensures pr.merged <==> from.state == MergedState
    ensures pr.closed == from.closed
    ensures pr.merge == from.mergeCommit.id
    ensures pr.created == MillisToSeconds(from.createdDate) && pr.updated == MillisToSeconds(from.updatedDate)
    ensures pr.head == Reference(from.fromRef.displayId, from.fromRef.id, from.fromRef.latestCommit)
    ensures pr.base == Reference(from.toRef.displayId, from.toRef.id, from.toRef.latestCommit)
    ensures pr.source == pr.head.name && pr.target == pr.base.name && pr.sha == pr.head.sha
    ensures pr.fork == env.join(from.fromRef.repository.project.key, from.fromRef.repository.slug)
    ensures pr.author == User(from.author.user.slug, from.author.user.displayName,
                              from.author.user.emailAddress, env.avatarLink(from.author.user.emailAddress))
  {
    var fork := env.join(from.fromRef.repository.project.key, from.fromRef.repository.slug);
    PullRequest(
      number := from.id,
      title := from.title,
      body := from.description,
      sha := from.fromRef.latestCommit,
      merge := from.mergeCommit.id,
      ref := PullRequestRef(from.id),
      source := from.fromRef.displayId,
      target := from.toRef.displayId,
      fork := fork,
      link := env.extractSelfLink(from.selfLinks),
      closed := from.closed,
      merged := from.state == MergedState,
      created := MillisToSeconds(from.createdDate),
      updated := MillisToSeconds(from.updatedDate),
      head := Reference(from.fromRef.displayId, from.fromRef.id, from.fromRef.latestCommit),
      base := Reference(from.toRef.displayId, from.toRef.id, from.toRef.latestCommit),
      author := User(
        login := from.author.user.slug,
        name := from.author.user.displayName,
        email := from.author.user.emailAddress,
        avatar := env.avatarLink(from.author.user.emailAddress)))
  }

  /**
   * `merged` does not look at the closed flag and `closed` does not look at the
   * state string: changing one raw field leaves the other normalized flag alone.
   */
  lemma MergedClosedIndependent(env: Env, from: Pr, state: string, closed: bool)
    ensures ConvertPullRequest(env, from.(closed := closed)).merged == ConvertPullRequest(env, from).merged
    ensures ConvertPullRequest(env, from.(state := state)).closed == ConvertPullRequest(env, from).closed
  {
  }

  /** The number of a normalized pull request can be read back from its ref. */
  lemma ConvertedRefNamesNumber(env: Env, from: Pr)
    ensures ParseRef(ConvertPullRequest(env, from).ref) == Some(from.id)
  {
    ParseRefRoundTrip(from.id);
  }

  /** Distinct pull-request numbers give distinct synthetic refs. */
  lemma ConvertedRefsDistinct(env: Env, a: Pr, b: Pr)
    requires a.id != b.id
    ensures ConvertPullRequest(env, a).ref != ConvertPullRequest(env, b).ref
  {
    if ConvertPullRequest(env, a).ref == ConvertPullRequest(env, b).ref {
      PullRequestRefInjective(a.id, b.id);
    }
  }

  /** convertPullRequests: one normalized pull request per raw one, in the same order. */
  method ConvertPullRequests(env: Env, from: Prs) returns (to: seq<PullRequest>)
    ensures |to| == |from.values|
    ensures forall i :: 0 <= i < |to| ==> to[i] == ConvertPullRequest(env, from.values[i])
  {
    to := [];
    for i := 0 to |from.values|
      invariant |to| == i
      invariant forall k :: 0 <= k < i ==> to[k] == ConvertPullRequest(env, from.values[k])
    {
      to := to + [ConvertPullRequest(env, from.values[i])];
    }
  }

  // ---------------------------------------------------------------------------
  // Comment classification
  // ---------------------------------------------------------------------------

  /** The kind tag and the metadata variant of a comment agree. */
  predicate KindAgrees(c: Comment) {
    && (c.kind == GeneralKind <==> c.metadata.GeneralCommentMetadata?)
    && (c.kind == CodeKind <==> c.metadata.CodeCommentMetadata?)
    && (c.kind == ReplyKind <==> c.metadata.ReplyCommentMetadata?)
  }

  /**
   * convertPullRequestComment. The kind is decided in this order: a non-zero
   * parent makes a reply, whatever the anchor; otherwise an anchor with a
   * non-empty path makes a code comment with a span of one line; otherwise the
   * comment is general. The other fields are copied, dates truncated to seconds.
   */
  function ConvertPullRequestComment(env: Env, from: PullRequestComment, parentId: int, anchor: Option<CommentAnchor>): (c: Comment)
    ensures parentId != 0 ==> c.kind == ReplyKind && c.metadata == ReplyCommentMetadata(parentId)
    ensures parentId == 0 && anchor.Some? && anchor.value.path != "" ==>
      && c.kind == CodeKind
      && c.metadata == CodeCommentMetadata(anchor.value.path, anchor.value.line, 1, anchor.value.fromHash, anchor.value.toHash)
    ensures parentId == 0 && (anchor.None? || anchor.value.path == "") ==>
      c.kind == GeneralKind && c.metadata == GeneralCommentMetadata
    ensures KindAgrees(c)
    ensures c.id == from.id && c.body == from.text
    ensures c.created == MillisToSeconds(from.createdDate) && c.updated == MillisToSeconds(from.updatedDate)
    ensures c.author == User(from.author.slug, from.author.displayName, from.author.emailAddress, env.avatarLink(from.author.emailAddress))
  {
    var (kind0, metadata0) := (GeneralKind, GeneralCommentMetadata);
    var (kind1, metadata1) :=
      if anchor.Some? && anchor.value.path != "" then
        (CodeKind, CodeCommentMetadata(
           path := anchor.value.path,
           line := anchor.value.line,
           lineSpan := 1,
           sourceSha := anchor.value.fromHash,
           mergeBaseSha := anchor.value.toHash))
      else (kind0, metadata0);
    var (kind, metadata) := if parentId != 0 then (ReplyKind, ReplyCommentMetadata(parentId)) else (kind1, metadata1);
    Comment(
      id := from.id,
      body := from.text,
      created := MillisToSeconds(from.createdDate),
      updated := MillisToSeconds(from.updatedDate),
      author := User(from.author.slug, from.author.displayName, from.author.emailAddress, env.avatarLink(from.author.emailAddress)),
      kind := kind,
      metadata := metadata)
  }

  /** A reply is classified the same whatever anchor comes with it. */
  lemma ReplyIgnoresAnchor(env: Env, from: PullRequestComment, parentId: int, a: Option<CommentAnchor>, b: Option<CommentAnchor>)
    requires parentId != 0
    ensures ConvertPullRequestComment(env, from, parentId, a) == ConvertPullRequestComment(env, from, parentId, b)
  {
  }

  /** An anchor with an empty path counts as no anchor at all. */
  lemma EmptyPathIsNoAnchor(env: Env, from: PullRequestComment, parentId: int, anchor: CommentAnchor)
    requires anchor.path == ""
    ensures ConvertPullRequestComment(env, from, parentId, Some(anchor)) == ConvertPullRequestComment(env, from, parentId, None)
  {
  }

  // ---------------------------------------------------------------------------
  // Activity feed filter
  // ---------------------------------------------------------------------------

  /** A feed entry the filter keeps: a comment activity whose action is COMMENTED. */
  predicate IsPostedComment(e: Entry) {
    e.CommentActivity? && e.activity.action == Commented
  }

  /** The comment activities of a feed that the filter keeps, in feed order. */
  function Filtered(feed: seq<Entry>): (r: seq<PrCommentActivity>)
    ensures |r| <= |feed|
    decreases |feed|
  {
    if feed == [] then []
    else
      var n := |feed| - 1;
      Filtered(feed[..n]) + (if IsPostedComment(feed[n]) then [feed[n].activity] else [])
  }

  /** The positions of the kept entries: ascending, each a kept entry, and every kept entry listed. */
  function KeptIndices(feed: seq<Entry>): (idx: seq<nat>)
    ensures forall k :: 0 <= k < |idx| ==> idx[k] < |feed| && IsPostedComment(feed[idx[k]])
    ensures forall k, l :: 0 <= k < l < |idx| ==> idx[k] < idx[l]
    ensures forall i :: 0 <= i < |feed| && IsPostedComment(feed[i]) ==> i in idx
    decreases |feed|
  {
    if feed == [] then []
    else
      var n := |feed| - 1;
      KeptIndices(feed[..n]) + (if IsPostedComment(feed[n]) then [n] else [])
  }

  /**
   * The filter's output is the subsequence of the feed at the kept positions:
   * together with KeptIndices, the output holds exactly the comment activities
   * whose action is COMMENTED, in feed order.
   */
  lemma {:induction false} FilteredIsSubsequence(feed: seq<Entry>)
    ensures |Filtered(feed)| == |KeptIndices(feed)|
    ensures forall k :: 0 <= k < |Filtered(feed)| ==> feed[KeptIndices(feed)[k]] == CommentActivity(Filtered(feed)[k])
    decreases |feed|
  {
    if feed != [] {
      var n := |feed| - 1;
      var init := feed[..n];
      FilteredIsSubsequence(init);
      var r, idx := Filtered(feed), KeptIndices(feed);
      assert r[..|Filtered(init)|] == Filtered(init);
      assert idx[..|KeptIndices(init)|] == KeptIndices(init);
      forall k | 0 <= k < |r|
        ensures feed[idx[k]] == CommentActivity(r[k])
      {
        if k < |Filtered(init)| {
          assert r[k] == Filtered(init)[k];
          assert idx[k] == KeptIndices(init)[k];
          assert feed[idx[k]] == init[KeptIndices(init)[k]];
        } else {
          assert idx[k] == n;
        }
      }
    }
  }

  /** An activity is in the output exactly when the feed holds it as a comment activity with action COMMENTED. */
  lemma {:induction false} FilteredMembership(feed: seq<Entry>, x: PrCommentActivity)
    ensures x in Filtered(feed) <==> CommentActivity(x) in feed && x.action == Commented
    decreases |feed|
  {
    if feed != [] {
      var n := |feed| - 1;
      FilteredMembership(feed[..n], x);
      assert feed == feed[..n] + [feed[n]];
    }
  }

  /** filterOutComments: keeps the comment activities whose action is COMMENTED, in feed order. */
  method FilterOutComments(from: seq<Entry>) returns (comments: seq<PrCommentActivity>)
    ensures comments == Filtered(from)
  {
    comments := [];
    for i := 0 to |from|
      invariant comments == Filtered(from[..i])
    {
      assert from[..i + 1][..i] == from[..i];
      match from[i]
      case CommentActivity(prComment) =>
        if prComment.action == Commented {
          comments := comments + [prComment];
        }
      case Other =>
    }
    assert from[..|from|] == from;
  }

  // ---------------------------------------------------------------------------
  // Comment flattening
  // ---------------------------------------------------------------------------

  /**
   * The outcome of the flattening loop when its inner loop may run at most a
   * given number of times: the list it returns, or the list it has built when
   * the budget ran out with the inner loop still running.
   */
  datatype FlattenRun = Finished(comments: seq<Comment>) | OutOfFuel(comments: seq<Comment>)

  /** A top-level comment of an activity: no parent, and the activity's own anchor (never nil). */
  function TopLevel(env: Env, a: PrCommentActivity): (c: Comment)
    ensures c.kind == (if a.anchor.path != "" then CodeKind else GeneralKind)
  {
    ConvertPullRequestComment(env, a.comment, 0, Some(a.anchor))
  }

  /** The reply the inner loop emits on every turn: the first child, parented to the activity's comment. */
  function FirstChildReply(env: Env, a: PrCommentActivity): Comment
    requires a.comment.comments != []
  {
    ConvertPullRequestComment(env, a.comment.comments[0], a.comment.id, None)
  }

  function Repeat<T>(x: T, n: nat): (r: seq<T>)
    ensures |r| == n && forall k :: 0 <= k < n ==> r[k] == x
  {
    seq(n, _ => x)
  }

  function Prepend(p: seq<Comment>, run: FlattenRun): (r: FlattenRun)
    ensures r.Finished? == run.Finished? && r.comments == p + run.comments
  {
    match run
    case Finished(c) => Finished(p + c)
    case OutOfFuel(c) => OutOfFuel(p + c)
  }

  lemma PrependAssociative(p: seq<Comment>, q: seq<Comment>, run: FlattenRun)
    ensures Prepend(p, Prepend(q, run)) == Prepend(p + q, run)
  {
    assert p + (q + run.comments) == (p + q) + run.comments;
  }

  /**
   * convertPullRequestCommentsList as written, on the filtered activities, with
   * `fuel` turns of the inner loop allowed. The inner loop's child list never
   * shrinks, so the first activity whose comment has a reply never lets go.
   */
  function FlattenAsWritten(env: Env, acts: seq<PrCommentActivity>, fuel: nat): (r: FlattenRun)
    ensures r.Finished? ==> |r.comments| == |acts|
    ensures r.OutOfFuel? ==> fuel < |r.comments| <= |acts| + fuel
    decreases |acts|
  {
    if acts == [] then Finished([])
    else if acts[0].comment.comments != [] then
      OutOfFuel([TopLevel(env, acts[0])] + Repeat(FirstChildReply(env, acts[0]), fuel))
    else Prepend([TopLevel(env, acts[0])], FlattenAsWritten(env, acts[1..], fuel))
  }

  /** Without replies anywhere, the loop ends and yields one top-level comment per activity, in order. */
  lemma {:induction false} FlattenChildless(env: Env, acts: seq<PrCommentActivity>, fuel: nat)
    requires forall k :: 0 <= k < |acts| ==> acts[k].comment.comments == []
    ensures var run := FlattenAsWritten(env, acts, fuel);
      && run.Finished?
      && |run.comments| == |acts|
      && forall k :: 0 <= k < |acts| ==> run.comments[k] == TopLevel(env, acts[k])
    decreases |acts|
  {
    if acts != [] {
      FlattenChildless(env, acts[1..], fuel);
    }
  }

  /**
   * With a reply under activity j (and none before it), no budget is enough:
   * the run is out of fuel, having emitted the top-level comments up to j and
   * then the first reply of j once per turn, so its output grows with the budget.
   */
  lemma {:induction false} FlattenDiverges(env: Env, acts: seq<PrCommentActivity>, fuel: nat, j: nat)
    requires j < |acts| && acts[j].comment.comments != []
    requires forall k :: 0 <= k < j ==> acts[k].comment.comments == []
    ensures var run := FlattenAsWritten(env, acts, fuel);
      && run.OutOfFuel?
      && |run.comments| == j + 1 + fuel
      && (forall k :: 0 <= k <= j ==> run.comments[k] == TopLevel(env, acts[k]))
      && (forall k :: j < k < |run.comments| ==> run.comments[k] == FirstChildReply(env, acts[j]))
    decreases j
  {
    if j > 0 {
      var rest := acts[1..];
      assert rest[j - 1] == acts[j];
      FlattenDiverges(env, rest, fuel, j - 1);
      var tail := FlattenAsWritten(env, rest, fuel);
      assert FlattenAsWritten(env, acts, fuel) == Prepend([TopLevel(env, acts[0])], tail);
      assert forall k :: 1 <= k <= j ==> acts[k] == rest[k - 1];
    }
  }

  /** The loop ends, on any budget, exactly when no filtered activity's comment has a reply. */
  lemma {:induction false} FlattenFinishesIffChildless(env: Env, acts: seq<PrCommentActivity>, fuel: nat)
    ensures FlattenAsWritten(env, acts, fuel).Finished? <==> forall k :: 0 <= k < |acts| ==> acts[k].comment.comments == []
    decreases |acts|
  {
    if acts != [] && acts[0].comment.comments == [] {
      FlattenFinishesIffChildless(env, acts[1..], fuel);
      assert forall k :: 1 <= k < |acts| ==> acts[k] == acts[1..][k - 1];
    }
  }

  /**
   * convertPullRequestCommentsList, with the inner loop allowed `fuel` turns in
   * all. Filters the feed, then emits each activity's comment with no parent
   * and the activity's anchor, then spins on the child list.
   */
  method ConvertPullRequestCommentsList(env: Env, from: seq<Entry>, fuel: nat) returns (run: FlattenRun)
    ensures run == FlattenAsWritten(env, Filtered(from), fuel)
  {
    var comments := FilterOutComments(from);
    var to: seq<Comment> := [];
    var i := 0;
    while i < |comments|
      invariant 0 <= i <= |comments|
      invariant Prepend(to, FlattenAsWritten(env, comments[i..], fuel)) == FlattenAsWritten(env, comments, fuel)
    {
      var c := comments[i];
      var comment := c.comment;
      ghost var before := to;
      to := to + [ConvertPullRequestComment(env, comment, 0, Some(c.anchor))];
      var childComments := comment.comments;
      var turns := 0;
      while |childComments| > 0 && turns < fuel
        invariant turns <= fuel
        invariant |childComments| == 0 ==> to == before + [TopLevel(env, c)]
        invariant |childComments| > 0 ==> to == before + [TopLevel(env, c)] + Repeat(FirstChildReply(env, c), turns)
      {
        var childComment := childComments[0];
        to := to + [ConvertPullRequestComment(env, childComment, comment.id, None)];
        turns := turns + 1;
      }
      if |childComments| > 0 {
        assert to == before + ([TopLevel(env, c)] + Repeat(FirstChildReply(env, c), fuel));
        return OutOfFuel(to);
      }
      assert comments[i..][1..] == comments[i + 1..];
      PrependAssociative(before, [TopLevel(env, c)], FlattenAsWritten(env, comments[i + 1..], fuel));
      i := i + 1;
    }
    return Finished(to);
  }

  // ---------------------------------------------------------------------------
  // The flattening the loop evidently means
  // ---------------------------------------------------------------------------

  /** The direct replies of a comment, each parented to it. */
  function Replies(env: Env, children: seq<PullRequestComment>, parentId: int): (r: seq<Comment>)
    ensures |r| == |children|
    ensures forall k :: 0 <= k < |r| ==> r[k] == ConvertPullRequestComment(env, children[k], parentId, None)
  {
    seq(|children|, k requires 0 <= k < |children| => ConvertPullRequestComment(env, children[k], parentId, None))
  }

  /** How many comments one level of flattening yields: each activity's comment and its direct replies. */
  function CommentCount(acts: seq<PrCommentActivity>): nat
    decreases |acts|
  {
    if acts == [] then 0 else 1 + |acts[0].comment.comments| + CommentCount(acts[1..])
  }

  /** The lists `f` gives for the elements of `xs`, joined in order. */
  function ConcatMap<T, U>(f: T -> seq<U>, xs: seq<T>): seq<U>
    decreases |xs|
  {
    if xs == [] then [] else f(xs[0]) + ConcatMap(f, xs[1..])
  }

  lemma {:induction false} ConcatMapAppend<T, U>(f: T -> seq<U>, a: seq<T>, b: seq<T>)
    ensures ConcatMap(f, a + b) == ConcatMap(f, a) + ConcatMap(f, b)
    decreases |a|
  {
    if a == [] {
      assert a + b == b;
    } else {
      assert (a + b)[0] == a[0];
      assert (a + b)[1..] == a[1..] + b;
      ConcatMapAppend(f, a[1..], b);
    }
  }

  /** What one activity contributes: its comment, then its direct replies. */
  function Block(env: Env, a: PrCommentActivity): (r: seq<Comment>)
    ensures |r| == 1 + |a.comment.comments|
  {
    [TopLevel(env, a)] + Replies(env, a.comment.comments, a.comment.id)
  }

  lemma {:induction false} ConcatBlocksCount(env: Env, acts: seq<PrCommentActivity>)
    ensures |ConcatMap(a => Block(env, a), acts)| == CommentCount(acts)
    decreases |acts|
  {
    if acts != [] {
      ConcatBlocksCount(env, acts[1..]);
    }
  }

  /**
   * Each activity's comment with no parent and its anchor, followed at once by
   * each direct reply, once, parented to that comment.
   */
  function FlattenIntended(env: Env, acts: seq<PrCommentActivity>): (r: seq<Comment>)
    ensures |r| == CommentCount(acts)
  {
    ConcatBlocksCount(env, acts);
    ConcatMap(a => Block(env, a), acts)
  }

  /** Where one activity's block sits: after the blocks of the activities before it. */
  lemma FlattenIntendedSplit(env: Env, acts: seq<PrCommentActivity>, k: nat)
    requires k < |acts|
    ensures FlattenIntended(env, acts) ==
      FlattenIntended(env, acts[..k]) + Block(env, acts[k]) + FlattenIntended(env, acts[k + 1..])
  {
    var f := a => Block(env, a);
    assert acts == acts[..k] + ([acts[k]] + acts[k + 1..]);
    ConcatMapAppend(f, acts[..k], [acts[k]] + acts[k + 1..]);
    ConcatMapAppend(f, [acts[k]], acts[k + 1..]);
    assert [acts[k]][1..] == [];
    assert ConcatMap(f, [acts[k]]) == Block(env, acts[k]);
  }

  /** Indexing and slicing a list made of a prefix, one comment, its replies and the rest. */
  lemma BlockAt(pre: seq<Comment>, x: Comment, ys: seq<Comment>, post: seq<Comment>)
    ensures var r, off := pre + ([x] + ys) + post, |pre|;
      off + 1 + |ys| <= |r| && r[off] == x && r[off + 1..off + 1 + |ys|] == ys
  {
    var r := pre + ([x] + ys) + post;
    assert r[|pre| + 1..|pre| + 1 + |ys|] == ys;
  }

  /**
   * The emission order of the corrected flattening: activity k's comment sits
   * after everything the activities before it yield, and its direct replies
   * follow it at once, in the child list's order.
   */
  lemma FlattenIntendedOrder(env: Env, acts: seq<PrCommentActivity>, k: nat)
    requires k < |acts|
    ensures var r, off, children := FlattenIntended(env, acts), CommentCount(acts[..k]), acts[k].comment.comments;
      && off + 1 + |children| <= |r|
      && r[off] == TopLevel(env, acts[k])
      && r[off + 1..off + 1 + |children|] == Replies(env, children, acts[k].comment.id)
  {
    FlattenIntendedSplit(env, acts, k);
    BlockAt(FlattenIntended(env, acts[..k]), TopLevel(env, acts[k]),
      Replies(env, acts[k].comment.comments, acts[k].comment.id), FlattenIntended(env, acts[k + 1..]));
  }

  /** Where the loop as written ends, it yields exactly the intended list. */
  lemma {:induction false} FlattenAgreesWhenChildless(env: Env, acts: seq<PrCommentActivity>, fuel: nat)
    requires forall k :: 0 <= k < |acts| ==> acts[k].comment.comments == []
    ensures FlattenAsWritten(env, acts, fuel) == Finished(FlattenIntended(env, acts))
    decreases |acts|
  {
    if acts != [] {
      FlattenAgreesWhenChildless(env, acts[1..], fuel);
      assert Replies(env, acts[0].comment.comments, acts[0].comment.id) == [];
      assert FlattenAsWritten(env, acts, fuel) == Prepend([TopLevel(env, acts[0])], FlattenAsWritten(env, acts[1..], fuel));
    }
  }

  /**
   * A feed [A with replies c1 and c2; another entry; B with no replies]: the
   * filter keeps A and B; the intended list is A, c1, c2, B; the loop as
   * written never ends and repeats c1.
   */
  lemma FlattenScenario(env: Env, a: PrCommentActivity, b: PrCommentActivity, fuel: nat)
    requires a.action == Commented && b.action == Commented
    requires |a.comment.comments| == 2 && b.comment.comments == []
    ensures Filtered([CommentActivity(a), Other, CommentActivity(b)]) == [a, b]
    ensures FlattenIntended(env, [a, b]) ==
      [TopLevel(env, a),
       ConvertPullRequestComment(env, a.comment.comments[0], a.comment.id, None),
       ConvertPullRequestComment(env, a.comment.comments[1], a.comment.id, None),
       TopLevel(env, b)]
    ensures FlattenAsWritten(env, [a, b], fuel) ==
      OutOfFuel([TopLevel(env, a)] + Repeat(FirstChildReply(env, a), fuel))
  {
    var feed := [CommentActivity(a), Other, CommentActivity(b)];
    assert feed[..2] == [CommentActivity(a), Other];
    assert feed[..2][..1] == [CommentActivity(a)];
    assert feed[..2][..1][..0] == [];
    assert Filtered(feed[..2][..1]) == [a];
    assert Filtered(feed[..2]) == [a];
    assert [a, b][1..] == [b];
    var f := x => Block(env, x);
    ConcatMapAppend(f, [a], [b]);
    assert [a, b] == [a] + [b];
    assert ConcatMap(f, [a]) == Block(env, a) by { assert [a][1..] == []; }
    assert ConcatMap(f, [b]) == Block(env, b) by { assert [b][1..] == []; }
    var cs := a.comment.comments;
    assert Replies(env, cs, a.comment.id) ==
      [ConvertPullRequestComment(env, cs[0], a.comment.id, None), ConvertPullRequestComment(env, cs[1], a.comment.id, None)];
    assert Replies(env, b.comment.comments, b.comment.id) == [];
  }
}
