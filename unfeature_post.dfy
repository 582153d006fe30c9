/** app/Actions/QueryGate/Posts/UnfeaturePost.php: POST .../unfeature. */
module UnfeaturePost {
  import opened Common
  import opened QueryGate
  import opened PostModel
  import Actions
  import Roles
  import PostPolicy
  import PostService
  import FeaturePost

  function Descriptor(): ActionDescriptor {
    ActionDescriptor("unfeature", "POST", 200)
  }

  /** `authorize`: the `feature` ability; without a signed-in user the call fails. */
  function Authorize(user: Option<User>, p: Post): (r: Result<bool>)
    ensures r.Err? <==> user.None?
    ensures r.Err? ==> r.error.status == 500
    ensures r == Ok(true) <==> user.Some? && (Roles.IsAdmin(user.value) || Roles.IsEditor(user.value))
  {
    if user.None? then Err(Actions.NoUserError) else Ok(PostPolicy.Feature(user.value, p))
  }

  /** The `post` part of the response. */
  datatype Response = Response(message: string, id: int, title: string, slug: string, isFeatured: bool)

  function ResponseFor(q: Post): Response {
    Response("Post is no longer featured", q.id, q.title, q.slug, q.isFeatured)
  }

  /** What `handle` answers: a refusal for a post that is not featured, else
      the post no longer featured. */
  function Outcome(p: Post): (r: Result<Response>)
    ensures r.Ok? <==> p.isFeatured
    ensures r.Err? ==> r.error.status == 422
    ensures r.Ok? ==> r.value.message == "Post is no longer featured" && !r.value.isFeatured
                      && r.value.id == p.id && r.value.slug == p.slug && r.value.title == p.title
  {
    match PostService.UnfeaturedPost(p)
    case Ok(q) => Ok(ResponseFor(q))
    case Err(e) => Err(e)
  }

  /** The two actions are each other's inverse and are open to the same
      users: exactly one of them succeeds on any post, and unfeaturing what
      was just featured restores the row. */
  lemma FeatureUnfeatureToggle(u: Option<User>, p: Post)
    ensures Authorize(u, p) == FeaturePost.Authorize(u, p)
    ensures Outcome(p).Ok? != FeaturePost.Outcome(p).Ok?
    ensures !p.isFeatured ==> PostService.UnfeaturedPost(PostService.FeaturedPost(p).value) == Ok(p)
  {
    PostService.FeatureRoundTrip(p);
  }

  /** `handle`: no payload. */
  method Handle(service: PostService.PostService, id: int) returns (r: Result<Response>)
    requires service.Valid() && PostService.Found(service.posts, id)
    modifies service, service.cache
    ensures service.Valid()
    ensures r == Outcome(old(service.posts)[id])
    ensures service.posts == if r.Ok? then old(service.posts)[id := PostService.UnfeaturedPost(old(service.posts)[id]).value]
                             else old(service.posts)
    ensures service.nextId == old(service.nextId)
    ensures service.cache.keys == if r.Ok? then old(service.cache.keys) - {PostService.PostsListKey} else old(service.cache.keys)
  {
    var res := service.Unfeature(id);
    match res
    case Ok(q) => r := Ok(ResponseFor(q));
    case Err(e) => r := Err(e);
  }
}
