/** app/Services/CommentService.php: creating, editing, moderating and
    deleting comments through the repository, and invalidating the comment
    listings in the cache after each change (only the overall listing after
    a bulk approval). */
module CommentService {
  import opened Common
  import opened Strings
  import opened CommentModel
  import Repo = CommentRepository
  import Cache

  /** The cache key of the comments listing. */
  const CommentsListKey: string := "comments-list"

  /** The cache key of one post's comments: "post-{id}-comments". */
  function PostCommentsKey(postId: int): string {
    "post-" + IntToString(postId) + "-comments"
  }

  /** Each post has its own key ... */
  lemma PostCommentsKeyInjective(a: int, b: int)
    ensures PostCommentsKey(a) == PostCommentsKey(b) ==> a == b
  {
    if PostCommentsKey(a) == PostCommentsKey(b) {
      var ka, kb := PostCommentsKey(a), PostCommentsKey(b);
      assert ka[5..|ka| - 9] == IntToString(a);
      assert kb[5..|kb| - 9] == IntToString(b);
      IntToStringInjective(a, b);
    }
  }

  /** ... and none of them is the comments or posts listing key, so clearing
      one post's comments never drops another entry. */
  lemma PostCommentsKeyDistinct(postId: int)
    ensures PostCommentsKey(postId) != CommentsListKey
    ensures PostCommentsKey(postId) != "posts-list"
  {
    var k := PostCommentsKey(postId);
    assert k[0] == 'p' && k[4] == '-';
    assert CommentsListKey[0] == 'c';
    assert "posts-list"[4] == 's';
  }

  /** The `$data` array `create` receives. */
  datatype CommentData = CommentData(
    parentId: Option<int>,
    authorName: Option<string>,
    authorEmail: Option<string>,
    content: string,
    ipAddress: Option<string>)

  /** The attributes `create` passes to the repository (the id is assigned
      on insert). */
  function NewComment(postId: int, data: CommentData, author: Option<User>): Comment {
    Comment(0, postId,
            if author.Some? then Some(author.value.id) else None,
            data.parentId,
            if data.authorName.Some? then data.authorName else if author.Some? then Some(author.value.name) else None,
            if data.authorEmail.Some? then data.authorEmail else if author.Some? then Some(author.value.email) else None,
            data.content,
            if author.Some? then Approved else Pending,
            data.ipAddress,
            false)
  }

  /** A signed-in author's comment is approved at once and linked to the
      author; a guest's waits for moderation. The author's own name and
      e-mail fill in what the payload leaves out, and a guest who gives no
      name is shown as "Anonymous". */
  lemma NewCommentContract(postId: int, data: CommentData, author: Option<User>, users: map<int, User>)
    ensures var c := NewComment(postId, data, author);
      && (IsApproved(c) <==> author.Some?)
      && (IsPending(c) <==> author.None?)
      && c.userId == (if author.Some? then Some(author.value.id) else None)
      && c.postId == postId && c.content == data.content && c.parentId == data.parentId
      && (data.authorName.None? && author.Some? ==> c.authorName == Some(author.value.name))
      && (data.authorEmail.None? && author.Some? ==> c.authorEmail == Some(author.value.email))
      && (author.None? && data.authorName.None? ==> AuthorDisplayName(c, users) == "Anonymous")
      && (author.Some? && author.value.id in users ==> AuthorDisplayName(c, users) == users[author.value.id].name)
  {
  }

  /** `approve`: refused for a comment that is approved already. */
  function ApprovedComment(c: Comment): Result<Comment> {
    if IsApproved(c) then Err(Unprocessable("Comment is already approved")) else Ok(c.(status := Approved))
  }

  /** `reject`: refused for a comment that is rejected already. */
  function RejectedComment(c: Comment): Result<Comment> {
    if c.status == Rejected then Err(Unprocessable("Comment is already rejected")) else Ok(c.(status := Rejected))
  }

  /** `markAsSpam`: refused for a comment that is spam already. */
  function SpamComment(c: Comment): Result<Comment> {
    if c.status == Spam then Err(Unprocessable("Comment is already marked as spam")) else Ok(c.(status := Spam))
  }

  /** Each moderation step succeeds from every status but its own target,
      writes only the status, and fails when repeated. */
  lemma ModerationContract(c: Comment)
    ensures ApprovedComment(c).Ok? <==> c.status != Approved
    ensures RejectedComment(c).Ok? <==> c.status != Rejected
    ensures SpamComment(c).Ok? <==> c.status != Spam
    ensures ApprovedComment(c).Ok? ==> ApprovedComment(c).value == c.(status := Approved)
                                       && ApprovedComment(ApprovedComment(c).value).Err?
    ensures RejectedComment(c).Ok? ==> RejectedComment(c).value == c.(status := Rejected)
                                       && RejectedComment(RejectedComment(c).value).Err?
    ensures SpamComment(c).Ok? ==> SpamComment(c).value == c.(status := Spam)
                                   && SpamComment(SpamComment(c).value).Err?
    ensures ApprovedComment(c).Err? ==> ApprovedComment(c).error.status == 422
    ensures RejectedComment(c).Err? ==> RejectedComment(c).error.status == 422
    ensures SpamComment(c).Err? ==> SpamComment(c).error.status == 422
  {
  }

  /** A spam or rejected comment can still be approved: moderation decisions
      are reversible. */
  lemma ModerationReversible(c: Comment)
    requires RejectedComment(c).Ok? && SpamComment(c).Ok?
    ensures ApprovedComment(RejectedComment(c).value).Ok?
    ensures ApprovedComment(SpamComment(c).value).Ok?
  {
  }

  class CommentService {
    const repository: Repo.CommentRepository
    const cache: Cache.Cache

    ghost predicate Valid()
      reads this, repository
    {
      repository.Valid()
    }

    constructor (repository: Repo.CommentRepository, cache: Cache.Cache)
      ensures this.repository == repository && this.cache == cache
    {
      this.repository := repository;
      this.cache := cache;
    }

    /** `clearCache($post)`: the listing and the post's own comment entry. */
    method ClearCache(postId: int)
      modifies cache
      ensures cache.keys == old(cache.keys) - {CommentsListKey, PostCommentsKey(postId)}
    {
      cache.Forget(CommentsListKey);
      cache.Forget(PostCommentsKey(postId));
    }

    /** `create`. */
    method Create(postId: int, data: CommentData, author: Option<User>) returns (r: Comment)
      requires Valid()
      modifies repository, cache
      ensures Valid()
      ensures r == NewComment(postId, data, author).(id := old(repository.nextId))
      ensures repository.rows == old(repository.rows)[r.id := r] && repository.nextId == old(repository.nextId) + 1
      ensures cache.keys == old(cache.keys) - {CommentsListKey, PostCommentsKey(postId)}
    {
      r := repository.Create(NewComment(postId, data, author));
      ClearCache(postId);
    }

    /** `update`, with the content the update action accepts. */
    method Update(id: int, content: Option<string>) returns (r: Comment)
      requires Valid() && Repo.Live(repository.rows, id)
      modifies repository, cache
      ensures Valid()
      ensures r == old(repository.rows)[id].(content := content.GetOr(old(repository.rows)[id].content))
      ensures repository.rows == old(repository.rows)[id := r] && repository.nextId == old(repository.nextId)
      ensures cache.keys == old(cache.keys) - {CommentsListKey, PostCommentsKey(r.postId)}
    {
      var _ := repository.Update(id, content);
      r := repository.rows[id];
      ClearCache(r.postId);
    }

    /** `approve`. */
    method Approve(id: int) returns (r: Result<Comment>)
      requires Valid() && Repo.Live(repository.rows, id)
      modifies repository, cache
      ensures Valid()
      ensures r == ApprovedComment(old(repository.rows)[id])
      ensures repository.rows == (if r.Ok? then old(repository.rows)[id := r.value] else old(repository.rows))
      ensures repository.nextId == old(repository.nextId)
      ensures cache.keys == if r.Ok? then old(cache.keys) - {CommentsListKey, PostCommentsKey(r.value.postId)}
                            else old(cache.keys)
    {
      var c := repository.rows[id];
      if IsApproved(c) {
        return Err(Unprocessable("Comment is already approved"));
      }
      var _ := repository.Approve(id);
      ClearCache(c.postId);
      r := Ok(repository.rows[id]);
    }

    /** `reject`. */
    method Reject(id: int) returns (r: Result<Comment>)
      requires Valid() && Repo.Live(repository.rows, id)
      modifies repository, cache
      ensures Valid()
      ensures r == RejectedComment(old(repository.rows)[id])
      ensures repository.rows == (if r.Ok? then old(repository.rows)[id := r.value] else old(repository.rows))
      ensures repository.nextId == old(repository.nextId)
      ensures cache.keys == if r.Ok? then old(cache.keys) - {CommentsListKey, PostCommentsKey(r.value.postId)}
                            else old(cache.keys)
    {
      var c := repository.rows[id];
      if c.status == Rejected {
        return Err(Unprocessable("Comment is already rejected"));
      }
      var _ := repository.Reject(id);
      ClearCache(c.postId);
      r := Ok(repository.rows[id]);
    }

    /** `markAsSpam`. */
    method MarkAsSpam(id: int) returns (r: Result<Comment>)
      requires Valid() && Repo.Live(repository.rows, id)
      modifies repository, cache
      ensures Valid()
      ensures r == SpamComment(old(repository.rows)[id])
      ensures repository.rows == (if r.Ok? then old(repository.rows)[id := r.value] else old(repository.rows))
      ensures repository.nextId == old(repository.nextId)
      ensures cache.keys == if r.Ok? then old(cache.keys) - {CommentsListKey, PostCommentsKey(r.value.postId)}
                            else old(cache.keys)
    {
      var c := repository.rows[id];
      if c.status == Spam {
        return Err(Unprocessable("Comment is already marked as spam"));
      }
      var _ := repository.MarkAsSpam(id);
      ClearCache(c.postId);
      r := Ok(repository.rows[id]);
    }

    /** `bulkApprove`: only the comments listing is invalidated, not the
        per-post entries. */
    method BulkApprove(ids: seq<int>) returns (n: nat)
      requires Valid()
      modifies repository, cache
      ensures Valid()
      ensures repository.rows == Repo.BulkApproved(old(repository.rows), ids)
      ensures repository.nextId == old(repository.nextId)
      ensures n == |Repo.BulkApproveTargets(old(repository.rows), ids)|
      ensures cache.keys == old(cache.keys) - {CommentsListKey}
    {
      n := repository.BulkApprove(ids);
      cache.Forget(CommentsListKey);
    }

    /** `delete`: a soft delete, then the post's entries are cleared. */
    method Delete(id: int) returns (ok: bool)
      requires Valid() && Repo.Live(repository.rows, id)
      modifies repository, cache
      ensures Valid() && ok
      ensures repository.rows == old(repository.rows)[id := old(repository.rows)[id].(deleted := true)]
      ensures repository.nextId == old(repository.nextId)
      ensures cache.keys == old(cache.keys) - {CommentsListKey, PostCommentsKey(old(repository.rows)[id].postId)}
    {
      var postId := repository.rows[id].postId;
      ok := repository.Delete(id);
      ClearCache(postId);
    }
  }
}
