/** app/Actions/QueryGate/Posts/BulkPublishPosts.php: POST .../bulk-publish,
    an action on the collection rather than on one post. */
module BulkPublishPosts {
  import opened Common
  import opened QueryGate
  import opened PostModel
  import Actions
  import PostPolicy
  import PostService

  function Descriptor(): ActionDescriptor {
    ActionDescriptor("bulk-publish", "POST", 200)
  }

  /** `requiresModel`: the action is not bound to a post. */
  const RequiresModel: bool := false

  /** `authorize`: the `create` ability on the class; without a signed-in
      user the call fails. */
  function Authorize(user: Option<User>): (r: Result<bool>)
    ensures r.Err? <==> user.None?
    ensures r.Err? ==> r.error.status == 500
    ensures user.Some? ==> r == Ok(true)
  {
    if user.None? then Err(Actions.NoUserError) else Ok(PostPolicy.Create(user.value))
  }

  /** `validations`: between 1 and 50 ids, each an id of the posts table.
      The `exists` rule queries the table directly, so a soft-deleted post
      passes. */
  predicate Valid(ids: seq<int>, posts: map<int, PostModel.Post>) {
    1 <= |ids| <= 50 && forall i :: 0 <= i < |ids| ==> ids[i] in posts
  }

  datatype Summary = Summary(requested: nat, published: nat, failed: nat)

  datatype Response = Response(message: string, summary: Summary, publishedIds: seq<int>,
                               failures: seq<PostService.BulkFailure>)

  function ResponseFor(ids: seq<int>, res: PostService.BulkResult): Response {
    Response("Bulk publish completed", Summary(|ids|, |res.published|, |res.failed|), res.published, res.failed)
  }

  /** The summary adds up: every requested id is counted once, as published
      or as failed, and the published ids are the ones requested that could
      be published, in request order. */
  lemma SummaryAddsUp(posts: map<int, Post>, ids: seq<int>, now: int)
    ensures var r := ResponseFor(ids, PostService.BulkPublishRun(posts, ids, now).result);
      && r.summary.requested == r.summary.published + r.summary.failed
      && r.publishedIds == PostService.Pick(ids, PostService.BulkOutcomes(posts, ids, now), true)
      && |r.failures| == r.summary.failed
  {
    PostService.BulkPublishCounts(posts, ids, now);
    PostService.BulkPublishInOrder(posts, ids, now);
  }

  /** A soft-deleted post passes validation and is then reported as not
      found, without any change to the table. */
  lemma TrashedIdPassesValidation(posts: map<int, Post>, id: int, now: int)
    requires id in posts && posts[id].deleted
    ensures Valid([id], posts)
    ensures ResponseFor([id], PostService.BulkPublishRun(posts, [id], now).result)
            == Response("Bulk publish completed", Summary(1, 0, 1), [], [PostService.BulkFailure(id, "Post not found")])
    ensures PostService.BulkPublishRun(posts, [id], now).posts == posts
  {
    assert [id][..0] == [];
  }

  /** `handle`: the service's result, with the summary. */
  method Handle(service: PostService.PostService, ids: seq<int>, now: int) returns (r: Response)
    requires service.Valid()
    modifies service, service.cache
    ensures service.Valid()
    ensures var run := PostService.BulkPublishRun(old(service.posts), ids, now);
      service.posts == run.posts && r == ResponseFor(ids, run.result)
    ensures service.nextId == old(service.nextId)
    ensures service.cache.keys == if |r.publishedIds| > 0 then old(service.cache.keys) - {PostService.PostsListKey}
                                  else old(service.cache.keys)
  {
    var res := service.BulkPublish(ids, now);
    r := ResponseFor(ids, res);
  }
}
