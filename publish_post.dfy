/** app/Actions/QueryGate/Posts/PublishPost.php: POST .../publish. */
module PublishPost {
  import opened Common
  import opened QueryGate
  import opened PostModel
  import Actions
  import Roles
  import PostPolicy
  import PostService

  function Descriptor(): ActionDescriptor {
    ActionDescriptor("publish", "POST", 200)
  }

  /** `authorize`: the `update` ability, not the `publish` one; without a
      signed-in user the call fails. */
  function Authorize(user: Option<User>, p: Post): (r: Result<bool>)
    ensures r.Err? <==> user.None?
    ensures r.Err? ==> r.error.status == 500
    ensures r == Ok(true) <==> user.Some? && (user.value.id == p.userId || Roles.IsAdmin(user.value))
  {
    if user.None? then Err(Actions.NoUserError) else Ok(PostPolicy.Update(user.value, p))
  }

  /** An editor who neither wrote the post nor is the administrator holds the
      `publish` ability, yet the action refuses them. */
  lemma EditorRefusedDespitePublishAbility(u: User, p: Post)
    requires Roles.IsEditor(u) && u.id != p.userId
    ensures PostPolicy.Publish(u, p)
    ensures Authorize(Some(u), p) == Ok(false)
  {
    Roles.RolesDisjoint(u);
  }

  /** The `post` part of the response. */
  datatype Response = Response(message: string, id: int, title: string, slug: string, status: string, publishedAt: Option<int>)

  function ResponseFor(q: Post): Response {
    Response("Post published successfully", q.id, q.title, q.slug, StatusName(q.status), q.publishedAt)
  }

  /** What `handle` answers for the post as it was: the service's refusal, or
      the post now published at `now`. */
  function Outcome(p: Post, now: int): (r: Result<Response>)
    ensures r.Ok? <==> CanBePublished(p)
    ensures r.Err? ==> r.error.status == 422
    ensures r.Ok? ==> r.value.message == "Post published successfully"
                      && r.value.status == "published" && r.value.publishedAt == Some(now)
                      && r.value.id == p.id && r.value.slug == p.slug && r.value.title == p.title
  {
    match PostService.PublishedPost(p, now)
    case Ok(q) => Ok(ResponseFor(q))
    case Err(e) => Err(e)
  }

  /** `handle`: no payload (the rule set is empty). */
  method Handle(service: PostService.PostService, id: int, now: int) returns (r: Result<Response>)
    requires service.Valid() && PostService.Found(service.posts, id)
    modifies service, service.cache
    ensures service.Valid()
    ensures r == Outcome(old(service.posts)[id], now)
    ensures service.posts == if r.Ok? then old(service.posts)[id := PostService.PublishedPost(old(service.posts)[id], now).value]
                             else old(service.posts)
    ensures service.nextId == old(service.nextId)
    ensures service.cache.keys == if r.Ok? then old(service.cache.keys) - {PostService.PostsListKey} else old(service.cache.keys)
  {
    var res := service.Publish(id, now);
    match res
    case Ok(q) => r := Ok(ResponseFor(q));
    case Err(e) => r := Err(e);
  }
}
