/** app/Actions/QueryGate/Posts/FeaturePost.php: POST .../feature. */
module FeaturePost {
  import opened Common
  import opened QueryGate
  import opened PostModel
  import Actions
  import Roles
  import PostPolicy
  import PostService

  function Descriptor(): ActionDescriptor {
    ActionDescriptor("feature", "POST", 200)
  }

  /** `authorize`: the `feature` ability, which ignores authorship; without
      a signed-in user the call fails. */
  function Authorize(user: Option<User>, p: Post): (r: Result<bool>)
    ensures r.Err? <==> user.None?
    ensures r.Err? ==> r.error.status == 500
    ensures r == Ok(true) <==> user.Some? && (Roles.IsAdmin(user.value) || Roles.IsEditor(user.value))
  {
    if user.None? then Err(Actions.NoUserError) else Ok(PostPolicy.Feature(user.value, p))
  }

  /** The author alone may not feature their own post. */
  lemma AuthorRefused(u: User, p: Post)
    requires u.id == p.userId && !Roles.IsAdmin(u) && !Roles.IsEditor(u)
    ensures Authorize(Some(u), p) == Ok(false)
  {
  }

  /** The `post` part of the response. */
  datatype Response = Response(message: string, id: int, title: string, slug: string, isFeatured: bool)

  function ResponseFor(q: Post): Response {
    Response("Post is now featured", q.id, q.title, q.slug, q.isFeatured)
  }

  /** What `handle` answers: a refusal for a post featured already, else the
      featured post. */
  function Outcome(p: Post): (r: Result<Response>)
    ensures r.Ok? <==> !p.isFeatured
    ensures r.Err? ==> r.error.status == 422
    ensures r.Ok? ==> r.value.message == "Post is now featured" && r.value.isFeatured
                      && r.value.id == p.id && r.value.slug == p.slug && r.value.title == p.title
  {
    match PostService.FeaturedPost(p)
    case Ok(q) => Ok(ResponseFor(q))
    case Err(e) => Err(e)
  }

  /** `handle`: no payload. */
  method Handle(service: PostService.PostService, id: int) returns (r: Result<Response>)
    requires service.Valid() && PostService.Found(service.posts, id)
    modifies service, service.cache
    ensures service.Valid()
    ensures r == Outcome(old(service.posts)[id])
    ensures service.posts == if r.Ok? then old(service.posts)[id := PostService.FeaturedPost(old(service.posts)[id]).value]
                             else old(service.posts)
    ensures service.nextId == old(service.nextId)
    ensures service.cache.keys == if r.Ok? then old(service.cache.keys) - {PostService.PostsListKey} else old(service.cache.keys)
  {
    var res := service.Feature(id);
    match res
    case Ok(q) => r := Ok(ResponseFor(q));
    case Err(e) => r := Err(e);
  }
}
