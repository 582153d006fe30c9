/** app/Actions/QueryGate/Comments/ApproveComment.php: POST .../approve. */
module ApproveComment {
  import opened Common
  import opened QueryGate
  import opened CommentModel
  import Roles
  import CommentPolicy
  import Repo = CommentRepository
  import CommentService

  function Descriptor(): ActionDescriptor {
    ActionDescriptor("approve", "POST", 200)
  }

  /** `authorize`: `user()?->can('moderate') ?? false`, so a guest is refused
      rather than failing. `postOwnerId` is the author of the comment's post. */
  function Authorize(user: Option<User>, c: Comment, postOwnerId: int): (r: bool)
    ensures r <==> user.Some? && (user.value.id == postOwnerId || Roles.IsAdmin(user.value) || Roles.IsModerator(user.value))
  {
    user.Some? && CommentPolicy.Moderate(user.value, c, postOwnerId)
  }

  /** The `comment` part of the response. */
  datatype Response = Response(message: string, id: int, status: string, content: string, author: string)

  function ResponseFor(q: Comment, users: map<int, User>): Response {
    Response("Comment approved successfully", q.id, StatusName(q.status), q.content, AuthorDisplayName(q, users))
  }

  /** What `handle` answers: a refusal for a comment approved already, else
      the approved comment with its untouched content and its author's
      display name. */
  function Outcome(c: Comment, users: map<int, User>): (r: Result<Response>)
    ensures r.Ok? <==> !IsApproved(c)
    ensures r.Err? ==> r.error.status == 422
    ensures r.Ok? ==> r.value.message == "Comment approved successfully" && r.value.status == "approved"
                      && r.value.id == c.id && r.value.content == c.content
                      && r.value.author == AuthorDisplayName(c, users)
  {
    match CommentService.ApprovedComment(c)
    case Ok(q) => Ok(ResponseFor(q, users))
    case Err(e) => Err(e)
  }

  /** `handle`: no payload. `users` is the users table the `author`
      relation reads. */
  method Handle(service: CommentService.CommentService, id: int, users: map<int, User>) returns (r: Result<Response>)
    requires service.Valid() && Repo.Live(service.repository.rows, id)
    modifies service.repository, service.cache
    ensures service.Valid()
    ensures r == Outcome(old(service.repository.rows)[id], users)
    ensures service.repository.rows == if r.Ok? then old(service.repository.rows)[id := old(service.repository.rows)[id].(status := Approved)]
                                       else old(service.repository.rows)
    ensures service.repository.nextId == old(service.repository.nextId)
    ensures service.cache.keys == if r.Ok? then old(service.cache.keys) - {CommentService.CommentsListKey, CommentService.PostCommentsKey(old(service.repository.rows)[id].postId)}
                                  else old(service.cache.keys)
  {
    var res := service.Approve(id);
    match res
    case Ok(q) => r := Ok(ResponseFor(q, users));
    case Err(e) => r := Err(e);
  }
}
