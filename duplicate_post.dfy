/** app/Actions/QueryGate/Posts/DuplicatePost.php: POST .../duplicate. The
    copy goes to the requester unless `assign_to_me` is false, and a
    non-empty `new_title` renames it after it is saved. */
module DuplicatePost {
  import opened Common
  import opened QueryGate
  import opened PostModel
  import Actions
  import PostPolicy
  import PostService

  function Descriptor(): ActionDescriptor {
    ActionDescriptor("duplicate", "POST", 201)
  }

  /** `authorize`: the `create` ability, which every signed-in user holds;
      without a signed-in user the call fails. */
  function Authorize(user: Option<User>, p: Post): (r: Result<bool>)
    ensures r.Err? <==> user.None?
    ensures r.Err? ==> r.error.status == 500
    ensures user.Some? ==> r == Ok(true)
  {
    if user.None? then Err(Actions.NoUserError) else Ok(PostPolicy.Create(user.value))
  }

  /** The validated payload: both fields may be missing or null. */
  datatype Payload = Payload(newTitle: Option<string>, assignToMe: Option<bool>)

  /** `validations`: a title of at most 255 characters (the boolean rule is
      the type of `assignToMe`). */
  predicate Valid(payload: Payload) {
    payload.newTitle.None? || |payload.newTitle.value| <= 255
  }

  /** `$payload['assign_to_me'] ?? true`, then the requester or nobody. */
  function NewAuthor(user: User, payload: Payload): (a: Option<User>)
    ensures a == Some(user) <==> payload.assignToMe != Some(false)
    ensures a.None? <==> payload.assignToMe == Some(false)
  {
    var assignToMe := payload.assignToMe.GetOr(true);
    if assignToMe then Some(user) else None
  }

  /** The copy after the optional rename (`!empty($payload['new_title'])`). */
  function Renamed(copy: Post, newTitle: Option<string>): (q: Post)
    ensures q == copy.(title := q.title)
    ensures newTitle.None? || PhpEmpty(newTitle.value) ==> q == copy
    ensures newTitle.Some? && !PhpEmpty(newTitle.value) ==> q.title == newTitle.value
  {
    if newTitle.Some? && !PhpEmpty(newTitle.value) then copy.(title := newTitle.value) else copy
  }

  /** The row the action leaves behind: a draft, not featured, without
      views, likes or publication time, with the original's content and
      tags; owned by the requester unless the payload says otherwise; titled
      with the new title or "<title> (Copy)". */
  lemma StoredCopy(orig: Post, id: int, user: User, payload: Payload, slug: string)
    ensures var q := Renamed(PostService.CopyOf(orig, id, NewAuthor(user, payload), slug), payload.newTitle);
      && q.id == id && q.slug == slug && !q.deleted
      && q.status == Draft && !q.isFeatured && q.viewsCount == 0 && q.likesCount == 0 && q.publishedAt.None?
      && q.content == orig.content && q.excerpt == orig.excerpt && q.categoryId == orig.categoryId
      && q.featuredImage == orig.featuredImage && q.tagIds == orig.tagIds
      && q.userId == (if payload.assignToMe == Some(false) then orig.userId else user.id)
      && (q.title == orig.title + " (Copy)" || (payload.newTitle.Some? && q.title == payload.newTitle.value))
      && (payload.newTitle == Some("0") ==> q.title == orig.title + " (Copy)")
  {
  }

  /** The response: the original's id and the copy with its author. */
  datatype Response = Response(message: string, originalId: int, id: int, title: string, slug: string,
                               status: string, authorId: int, authorName: string)

  function ResponseFor(originalId: int, q: Post, users: map<int, User>): Response
    requires q.userId in users
  {
    Response("Post duplicated successfully", originalId, q.id, q.title, q.slug, StatusName(q.status),
             users[q.userId].id, users[q.userId].name)
  }

  /** `handle`. `users` is the users table the `author` relation reads; the
      original's author and the requester both have a row there. */
  method Handle(service: PostService.PostService, id: int, user: User, payload: Payload,
                users: map<int, User>, slugify: string -> string) returns (r: Response)
    requires service.Valid() && PostService.Found(service.posts, id)
    requires user.id in users && service.posts[id].userId in users
    modifies service, service.cache
    ensures service.Valid()
    ensures PostService.IsFirstFree(PostService.UsedSlugs(old(service.posts), None), old(service.posts)[id].slug + "-copy", r.slug)
    ensures var q := Renamed(PostService.CopyOf(old(service.posts)[id], old(service.nextId), NewAuthor(user, payload), r.slug),
                             payload.newTitle);
      service.posts == old(service.posts)[q.id := q] && r == ResponseFor(id, q, users)
    ensures service.nextId == old(service.nextId) + 1
    ensures service.cache.keys == old(service.cache.keys) - {PostService.PostsListKey}
  {
    var author := NewAuthor(user, payload);
    var copy := service.Duplicate(id, author, slugify);
    if payload.newTitle.Some? && !PhpEmpty(payload.newTitle.value) {
      copy := copy.(title := payload.newTitle.value);
      service.posts := service.posts[copy.id := copy];
    }
    r := ResponseFor(id, copy, users);
  }
}
