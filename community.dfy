/** The post list of `client/src/pages/Community.tsx`. Every handler builds a new list with
    `map`, `filter` or a spread and hands it to `setPosts`, so each is a function from the
    old list to the new one. `Date.now()` and the submitted image are parameters. */
module Community {
  import opened Wrappers
  import opened Seqs
  import opened Text
  import opened HateDetection

  datatype Comment = Comment(id: int, author: string, content: string, timestamp: string)

  datatype Post = Post(
    id: int,
    category: string,
    author: string,
    avatar: string,
    timestamp: string,
    title: string,
    content: string,
    image: Option<string>,
    likes: int,
    comments: seq<Comment>,
    likedBy: seq<string>)

  /** `currentUser`, the mock signed-in user. */
  const CurrentUserId: string := "user-1"
  const CurrentUserName: string := "You"
  const CurrentUserAvatar: string := "/placeholder.svg"
  const JustNow: string := "Just now"

  // ---- like / unlike ------------------------------------------------------------

  /** The per-post branch of `handleLikePost`: a user who already likes the post
      unlikes it (one like fewer, every occurrence of the user dropped from `likedBy`,
      every other liker recorded as often as before); any other user likes it (one like more, the
      user appended). No other field changes. */
  function ToggleLike(p: Post, user: string): (q: Post)
    ensures q.(likes := p.likes, likedBy := p.likedBy) == p
    ensures user in p.likedBy ==> q.likes == p.likes - 1 && Count(q.likedBy, user) == 0
    ensures user !in p.likedBy ==> q.likes == p.likes + 1 && q.likedBy == p.likedBy + [user]
    ensures user !in p.likedBy ==> Count(q.likedBy, user) == 1
    ensures forall u :: u != user ==> Count(q.likedBy, u) == Count(p.likedBy, u)
  {
    if user in p.likedBy then
      WithoutCounts(p.likedBy, user);
      p.(likes := p.likes - 1, likedBy := Without(p.likedBy, user))
    else
      forall u ensures Count(p.likedBy + [user], u) == Count(p.likedBy, u) + Count([user], u) {
        CountAppend(p.likedBy, [user], u);
      }
      p.(likes := p.likes + 1, likedBy := p.likedBy + [user])
  }

  /** `handleLikePost(postId)`: toggles the current user's like on every post with that
      id; the list keeps its length and order and the other posts are untouched. */
  function LikePost(posts: seq<Post>, postId: int): (r: seq<Post>)
    ensures |r| == |posts|
    ensures forall i :: 0 <= i < |posts| && posts[i].id != postId ==> r[i] == posts[i]
    ensures forall i :: 0 <= i < |posts| && posts[i].id == postId ==> r[i] == ToggleLike(posts[i], CurrentUserId)
  {
    MapIf(posts, (p: Post) => p.id == postId, (p: Post) => ToggleLike(p, CurrentUserId))
  }

  /** What the like bookkeeping keeps true: the user is recorded at most once, and the
      counter covers at least the recorded likers (the initial posts start that way,
      with `likedBy: []`). */
  predicate LikesConsistent(p: Post, user: string) {
    Count(p.likedBy, user) <= 1 && p.likes >= |p.likedBy|
  }

  /** The toggle keeps `likes - |likedBy|` fixed while the user is recorded at most once,
      and therefore keeps the bookkeeping consistent. */
  lemma ToggleKeepsBalance(p: Post, user: string)
    requires Count(p.likedBy, user) <= 1
    ensures ToggleLike(p, user).likes - |ToggleLike(p, user).likedBy| == p.likes - |p.likedBy|
    ensures LikesConsistent(p, user) ==> LikesConsistent(ToggleLike(p, user), user)
  {
    if user in p.likedBy {
      WithoutCounts(p.likedBy, user);
    }
  }

  /** Liking a post the user does not like yet, then unliking it, restores the post. */
  lemma LikeThenUnlike(p: Post, user: string)
    requires user !in p.likedBy
    ensures ToggleLike(ToggleLike(p, user), user) == p
  {
    var liked := ToggleLike(p, user);
    assert user in liked.likedBy;
    WithoutAppended(p.likedBy, user);
  }

  /** Every post of the list has consistent like bookkeeping for the current user. */
  predicate AllLikesConsistent(posts: seq<Post>) {
    forall i :: 0 <= i < |posts| ==> LikesConsistent(posts[i], CurrentUserId)
  }

  lemma LikePostKeepsConsistency(posts: seq<Post>, postId: int)
    requires AllLikesConsistent(posts)
    ensures AllLikesConsistent(LikePost(posts, postId))
  {
    forall i | 0 <= i < |posts| && posts[i].id == postId
      ensures LikesConsistent(LikePost(posts, postId)[i], CurrentUserId)
    {
      ToggleKeepsBalance(posts[i], CurrentUserId);
    }
  }

  // ---- comments -------------------------------------------------------------------

  /** `handleAddComment(postId, commentText)`: appends one comment, by the current user,
      stamped `now` and "Just now", to the end of every post with that id. Nothing else
      changes. */
  function AddComment(posts: seq<Post>, postId: int, commentText: string, now: int): (r: seq<Post>)
    ensures |r| == |posts|
    ensures forall i :: 0 <= i < |posts| && posts[i].id != postId ==> r[i] == posts[i]
    ensures forall i :: 0 <= i < |posts| && posts[i].id == postId ==>
              && r[i].comments == posts[i].comments + [Comment(now, CurrentUserName, commentText, JustNow)]
              && r[i].(comments := posts[i].comments) == posts[i]
  {
    var c := Comment(now, CurrentUserName, commentText, JustNow);
    MapIf(posts, (p: Post) => p.id == postId, (p: Post) => p.(comments := p.comments + [c]))
  }

  lemma AddCommentKeepsConsistency(posts: seq<Post>, postId: int, commentText: string, now: int)
    requires AllLikesConsistent(posts)
    ensures AllLikesConsistent(AddComment(posts, postId, commentText, now))
  {
    var r := AddComment(posts, postId, commentText, now);
    forall i | 0 <= i < |posts| ensures LikesConsistent(r[i], CurrentUserId) {
      assert r[i].likedBy == posts[i].likedBy && r[i].likes == posts[i].likes;
    }
  }

  // ---- new posts ------------------------------------------------------------------

  /** What `NewPostForm` submits. */
  datatype PostDraft = PostDraft(category: string, title: string, content: string, image: Option<string>)

  /** `handleNewPost(postData)`: the new post goes first, with id `now`, by the current
      user, with no likes, no comments and no likers; the old posts follow unchanged. */
  function NewPost(posts: seq<Post>, draft: PostDraft, now: int): (r: seq<Post>)
    ensures |r| == |posts| + 1 && r[1..] == posts
    ensures r[0].id == now && r[0].author == CurrentUserName && r[0].avatar == CurrentUserAvatar
    ensures r[0].timestamp == JustNow
    ensures r[0].category == draft.category && r[0].title == draft.title
    ensures r[0].content == draft.content && r[0].image == draft.image
    ensures r[0].likes == 0 && r[0].comments == [] && r[0].likedBy == []
  {
    [Post(now, draft.category, CurrentUserName, CurrentUserAvatar, JustNow,
          draft.title, draft.content, draft.image, 0, [], [])] + posts
  }

  lemma NewPostKeepsConsistency(posts: seq<Post>, draft: PostDraft, now: int)
    requires AllLikesConsistent(posts)
    ensures AllLikesConsistent(NewPost(posts, draft, now))
  {
    var r := NewPost(posts, draft, now);
    forall i | 0 <= i < |r| ensures LikesConsistent(r[i], CurrentUserId) {
      if i > 0 {
        assert r[i] == posts[i - 1];
      }
    }
  }

  // ---- the active tab ---------------------------------------------------------------

  /** `filteredPosts`: the posts whose category is the active tab, in list order. */
  function FilteredPosts(posts: seq<Post>, activeTab: string): (r: seq<Post>)
    ensures |r| <= |posts|
    ensures forall i :: 0 <= i < |r| ==> r[i].category == activeTab && r[i] in posts
    ensures forall i :: 0 <= i < |posts| && posts[i].category == activeTab ==> posts[i] in r
  {
    Filter(posts, (p: Post) => p.category == activeTab)
  }

  /** The tab keeps list order: the filter of a concatenation is the concatenation of
      the filters. */
  lemma FilteredPostsAppend(a: seq<Post>, b: seq<Post>, activeTab: string)
    ensures FilteredPosts(a + b, activeTab) == FilteredPosts(a, activeTab) + FilteredPosts(b, activeTab)
  {
    FilterAppend(a, b, (p: Post) => p.category == activeTab);
  }

  /** A new post shows first in its own tab and leaves every other tab as it was. */
  lemma NewPostInTab(posts: seq<Post>, draft: PostDraft, now: int, activeTab: string)
    ensures var r := NewPost(posts, draft, now);
            FilteredPosts(r, activeTab)
            == (if draft.category == activeTab then [r[0]] else []) + FilteredPosts(posts, activeTab)
  {
    var r := NewPost(posts, draft, now);
    assert r == [r[0]] + posts;
    FilteredPostsAppend([r[0]], posts, activeTab);
  }

  // ---- submission gates -----------------------------------------------------------------

  /** What a submission handler does with its input: return silently (blank input), show
      an error toast with the classifier's reason, or go ahead. */
  datatype Gate = Ignored | Rejected(description: Option<string>) | Accepted

  /** The checks of `Post.handleAddComment`: a blank comment is ignored; a flagged one
      is rejected with the classifier's reason; any other is accepted, and then no
      lexicon word occurs in it. */
  function CommentGate(comment: string): (g: Gate)
    ensures g == Ignored <==> IsBlank(comment)
    ensures g.Rejected? <==> !IsBlank(comment) && DetectHateSpeech(comment).isHateSpeech
    ensures g.Rejected? ==> g.description == DetectHateSpeech(comment).reason && g.description.Some?
    ensures g == Accepted ==> FoundWords(Lower(comment)) == []
  {
    if IsBlank(comment) then Ignored
    else
      var result := DetectHateSpeech(comment);
      if result.isHateSpeech then Rejected(result.reason) else Accepted
  }

  /** The checks of `NewPostForm.handleSubmit`: a blank content is ignored (the title is
      not checked for blankness here); a post whose content or title is flagged is
      rejected, with the content's reason when the content is flagged and the title's
      otherwise; any other is accepted, and then no lexicon word occurs in either. */
  function PostGate(title: string, content: string): (g: Gate)
    ensures g == Ignored <==> IsBlank(content)
    ensures g.Rejected? <==>
              !IsBlank(content) && (DetectHateSpeech(content).isHateSpeech || DetectHateSpeech(title).isHateSpeech)
    ensures g.Rejected? && DetectHateSpeech(content).isHateSpeech ==>
              g.description == DetectHateSpeech(content).reason
    ensures g.Rejected? && !DetectHateSpeech(content).isHateSpeech ==>
              g.description == DetectHateSpeech(title).reason
    ensures g.Rejected? ==> g.description.Some?
    ensures g == Accepted ==> FoundWords(Lower(content)) == [] && FoundWords(Lower(title)) == []
  {
    if IsBlank(content) then Ignored
    else
      NothingFoundInEmpty();
      var contentResult := DetectHateSpeech(content);
      var titleResult := DetectHateSpeech(title);
      if contentResult.isHateSpeech || titleResult.isHateSpeech then
        Rejected(if contentResult.isHateSpeech then contentResult.reason else titleResult.reason)
      else
        Accepted
  }

  /** A comment submitted on a post: the gate, then `handleAddComment` when it passes. */
  function SubmitComment(posts: seq<Post>, postId: int, comment: string, now: int): (r: (seq<Post>, Gate))
    ensures r.1 == CommentGate(comment)
    ensures r.1 == Accepted ==> r.0 == AddComment(posts, postId, comment, now)
    ensures r.1 != Accepted ==> r.0 == posts
  {
    var g := CommentGate(comment);
    if g == Accepted then (AddComment(posts, postId, comment, now), g) else (posts, g)
  }

  /** A post submitted from a tab's form: the gate, then `handleNewPost` when it passes. */
  function SubmitPost(posts: seq<Post>, draft: PostDraft, now: int): (r: (seq<Post>, Gate))
    ensures r.1 == PostGate(draft.title, draft.content)
    ensures r.1 == Accepted ==> r.0 == NewPost(posts, draft, now)
    ensures r.1 != Accepted ==> r.0 == posts
  {
    var g := PostGate(draft.title, draft.content);
    if g == Accepted then (NewPost(posts, draft, now), g) else (posts, g)
  }

  /** Content that gets through the gates carries no lexicon word: every comment that
      `SubmitComment` adds is clean. */
  lemma SubmittedCommentsAreClean(posts: seq<Post>, postId: int, comment: string, now: int)
    ensures |SubmitComment(posts, postId, comment, now).0| == |posts|
    ensures var r := SubmitComment(posts, postId, comment, now).0;
            forall i, k :: 0 <= i < |posts| && |posts[i].comments| <= k < |r[i].comments| ==>
              FoundWords(Lower(r[i].comments[k].content)) == []
  {
  }

  /** Likewise the post that `SubmitPost` adds has a clean content and title. */
  lemma SubmittedPostIsClean(posts: seq<Post>, draft: PostDraft, now: int)
    ensures var r := SubmitPost(posts, draft, now).0;
            |r| > |posts| ==>
              FoundWords(Lower(r[0].content)) == [] && FoundWords(Lower(r[0].title)) == []
  {
  }
}
