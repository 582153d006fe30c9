/** app/Actions/QueryGate/Comments/RejectComment.php: POST .../reject, with an
    optional reason that is echoed back but not stored. */
module RejectComment {
  import opened Common
  import opened QueryGate
  import opened CommentModel
  import Actions
  import Roles
  import CommentPolicy
  import Repo = CommentRepository
  import CommentService

  function Descriptor(): ActionDescriptor {
    ActionDescriptor("reject", "POST", 200)
  }

  /** `authorize`: the `moderate` ability; a guest is refused. */
  function Authorize(user: Option<User>, c: Comment, postOwnerId: int): (r: bool)
    ensures r <==> user.Some? && (user.value.id == postOwnerId || Roles.IsAdmin(user.value) || Roles.IsModerator(user.value))
  {
    user.Some? && CommentPolicy.Moderate(user.value, c, postOwnerId)
  }

  /** The commenter cannot reject their own comment, whatever it says, unless
      they also hold a moderating role or wrote the post. */
  lemma AuthorCannotModerate(u: User, c: Comment, postOwnerId: int)
    requires CommentPolicy.Wrote(u, c) && u.id != postOwnerId && !Roles.IsAdmin(u) && !Roles.IsModerator(u)
    ensures !Authorize(Some(u), c, postOwnerId)
  {
    CommentPolicy.ModerationIgnoresAuthorship(u, c, c, postOwnerId);
  }

  /** The validated payload. */
  datatype Payload = Payload(reason: Option<string>)

  /** `validations`. */
  predicate Valid(payload: Payload) {
    Actions.ReasonValid(payload.reason)
  }

  /** The response: the comment's id and status, and the reason. */
  datatype Response = Response(message: string, id: int, status: string, reason: Option<string>)

  function ResponseFor(q: Comment, payload: Payload): Response {
    Response("Comment rejected", q.id, StatusName(q.status), payload.reason)
  }

  /** What `handle` answers: a refusal for a comment rejected already, else
      the rejected comment and the reason given (or none). */
  function Outcome(c: Comment, payload: Payload): (r: Result<Response>)
    ensures r.Ok? <==> c.status != Rejected
    ensures r.Err? ==> r.error.status == 422
    ensures r.Ok? ==> r.value.message == "Comment rejected" && r.value.status == "rejected"
                      && r.value.id == c.id && r.value.reason == payload.reason
  {
    match CommentService.RejectedComment(c)
    case Ok(q) => Ok(ResponseFor(q, payload))
    case Err(e) => Err(e)
  }

  /** `handle`. */
  method Handle(service: CommentService.CommentService, id: int, payload: Payload) returns (r: Result<Response>)
    requires service.Valid() && Repo.Live(service.repository.rows, id)
    modifies service.repository, service.cache
    ensures service.Valid()
    ensures r == Outcome(old(service.repository.rows)[id], payload)
    ensures service.repository.rows == if r.Ok? then old(service.repository.rows)[id := old(service.repository.rows)[id].(status := Rejected)]
                                       else old(service.repository.rows)
    ensures service.repository.nextId == old(service.repository.nextId)
    ensures service.cache.keys == if r.Ok? then old(service.cache.keys) - {CommentService.CommentsListKey, CommentService.PostCommentsKey(old(service.repository.rows)[id].postId)}
                                  else old(service.cache.keys)
  {
    var res := service.Reject(id);
    match res
    case Ok(q) => r := Ok(ResponseFor(q, payload));
    case Err(e) => r := Err(e);
  }
}
