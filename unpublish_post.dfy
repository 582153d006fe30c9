/** app/Actions/QueryGate/Posts/UnpublishPost.php: POST .../unpublish. */
module UnpublishPost {
  import opened Common
  import opened QueryGate
  import opened PostModel
  import Actions
  import Roles
  import PostPolicy
  import PostService

  function Descriptor(): ActionDescriptor {
    ActionDescriptor("unpublish", "POST", 200)
  }

  /** `authorize`: the `update` ability; without a signed-in user the call fails. */
  function Authorize(user: Option<User>, p: Post): (r: Result<bool>)
    ensures r.Err? <==> user.None?
    ensures r.Err? ==> r.error.status == 500
    ensures r == Ok(true) <==> user.Some? && (user.value.id == p.userId || Roles.IsAdmin(user.value))
  {
    if user.None? then Err(Actions.NoUserError) else Ok(PostPolicy.Update(user.value, p))
  }

  /** The `post` part of the response; `published_at` is always null. */
  datatype Response = Response(message: string, id: int, title: string, slug: string, status: string, publishedAt: Option<int>)

  function ResponseFor(q: Post): Response {
    Response("Post unpublished successfully", q.id, q.title, q.slug, StatusName(q.status), None)
  }

  /** What `handle` answers: the refusal for a post that is not published
      at `now`, else the post back in draft. */
  function Outcome(p: Post, now: int): (r: Result<Response>)
    ensures r.Ok? <==> IsPublished(p, now)
    ensures r.Err? ==> r.error.status == 422
    ensures r.Ok? ==> r.value.message == "Post unpublished successfully"
                      && r.value.status == "draft" && r.value.publishedAt.None?
                      && r.value.id == p.id && r.value.slug == p.slug && r.value.title == p.title
  {
    match PostService.UnpublishedPost(p, now)
    case Ok(q) => Ok(ResponseFor(q))
    case Err(e) => Err(e)
  }

  /** Publishing then unpublishing through the two actions answers with the
      same post, first published and then in draft again. */
  lemma PublishedPostCanBeUnpublished(p: Post, now: int)
    requires CanBePublished(p)
    ensures PostService.PublishedPost(p, now).Ok?
    ensures Outcome(PostService.PublishedPost(p, now).value, now).Ok?
  {
    PostService.PublishThenUnpublish(p, now);
  }

  /** `handle`: no payload. */
  method Handle(service: PostService.PostService, id: int, now: int) returns (r: Result<Response>)
    requires service.Valid() && PostService.Found(service.posts, id)
    modifies service, service.cache
    ensures service.Valid()
    ensures r == Outcome(old(service.posts)[id], now)
    ensures service.posts == if r.Ok? then old(service.posts)[id := PostService.UnpublishedPost(old(service.posts)[id], now).value]
                             else old(service.posts)
    ensures service.nextId == old(service.nextId)
    ensures service.cache.keys == if r.Ok? then old(service.cache.keys) - {PostService.PostsListKey} else old(service.cache.keys)
  {
    var res := service.Unpublish(id, now);
    match res
    case Ok(q) => r := Ok(ResponseFor(q));
    case Err(e) => r := Err(e);
  }
}
