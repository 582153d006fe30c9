/** app/Actions/QueryGate/Posts/ArchivePost.php: POST .../archive, with an
    optional reason that is echoed back but not stored. */
module ArchivePost {
  import opened Common
  import opened QueryGate
  import opened PostModel
  import Actions
  import Roles
  import PostPolicy
  import PostService

  function Descriptor(): ActionDescriptor {
    ActionDescriptor("archive", "POST", 200)
  }

  /** `authorize`: the `update` ability; without a signed-in user the call fails. */
  function Authorize(user: Option<User>, p: Post): (r: Result<bool>)
    ensures r.Err? <==> user.None?
    ensures r.Err? ==> r.error.status == 500
    ensures r == Ok(true) <==> user.Some? && (user.value.id == p.userId || Roles.IsAdmin(user.value))
  {
    if user.None? then Err(Actions.NoUserError) else Ok(PostPolicy.Update(user.value, p))
  }

  /** The validated payload. */
  datatype Payload = Payload(reason: Option<string>)

  /** `validations`. */
  predicate Valid(payload: Payload) {
    Actions.ReasonValid(payload.reason)
  }

  /** The response: the post, the time of archiving and the reason. */
  datatype Response = Response(message: string, id: int, title: string, slug: string, status: string,
                               archivedAt: int, reason: Option<string>)

  function ResponseFor(q: Post, payload: Payload, now: int): Response {
    Response("Post archived successfully", q.id, q.title, q.slug, StatusName(q.status), now, payload.reason)
  }

  /** What `handle` answers: a refusal for a post archived already, else the
      archived post with the reason given (or none). */
  function Outcome(p: Post, payload: Payload, now: int): (r: Result<Response>)
    ensures r.Ok? <==> p.status != Archived
    ensures r.Err? ==> r.error.status == 422
    ensures r.Ok? ==> r.value.message == "Post archived successfully" && r.value.status == "archived"
                      && r.value.archivedAt == now && r.value.reason == payload.reason
                      && r.value.id == p.id && r.value.slug == p.slug && r.value.title == p.title
  {
    match PostService.ArchivedPost(p)
    case Ok(q) => Ok(ResponseFor(q, payload, now))
    case Err(e) => Err(e)
  }

  /** Archiving twice fails the second time, whatever reason is given. */
  lemma ArchiveTwiceRefused(p: Post, second: Payload, now: int)
    requires p.status != Archived
    ensures PostService.ArchivedPost(p).Ok?
    ensures Outcome(PostService.ArchivedPost(p).value, second, now).Err?
  {
    PostService.ArchiveOnce(p, now);
  }

  /** `handle`. */
  method Handle(service: PostService.PostService, id: int, payload: Payload, now: int) returns (r: Result<Response>)
    requires service.Valid() && PostService.Found(service.posts, id)
    modifies service, service.cache
    ensures service.Valid()
    ensures r == Outcome(old(service.posts)[id], payload, now)
    ensures service.posts == if r.Ok? then old(service.posts)[id := PostService.ArchivedPost(old(service.posts)[id]).value]
                             else old(service.posts)
    ensures service.nextId == old(service.nextId)
    ensures service.cache.keys == if r.Ok? then old(service.cache.keys) - {PostService.PostsListKey} else old(service.cache.keys)
  {
    var res := service.Archive(id);
    match res
    case Ok(q) => r := Ok(ResponseFor(q, payload, now));
    case Err(e) => r := Err(e);
  }
}
