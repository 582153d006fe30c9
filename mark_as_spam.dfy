/** app/Actions/QueryGate/Comments/MarkAsSpam.php: POST .../mark-spam. */
module MarkAsSpam {
  import opened Common
  import opened QueryGate
  import opened CommentModel
  import Roles
  import CommentPolicy
  import Repo = CommentRepository
  import CommentService

  function Descriptor(): ActionDescriptor {
    ActionDescriptor("mark-spam", "POST", 200)
  }

  /** `authorize`: the `moderate` ability; a guest is refused. */
  function Authorize(user: Option<User>, c: Comment, postOwnerId: int): (r: bool)
    ensures r <==> user.Some? && (user.value.id == postOwnerId || Roles.IsAdmin(user.value) || Roles.IsModerator(user.value))
  {
    user.Some? && CommentPolicy.Moderate(user.value, c, postOwnerId)
  }

  /** The `comment` part of the response, with the address it was sent from. */
  datatype Response = Response(message: string, id: int, status: string, ipAddress: Option<string>)

  function ResponseFor(q: Comment): Response {
    Response("Comment marked as spam", q.id, StatusName(q.status), q.ipAddress)
  }

  /** What `handle` answers: a refusal for a comment that is spam already,
      else the comment marked as spam with its stored address. */
  function Outcome(c: Comment): (r: Result<Response>)
    ensures r.Ok? <==> c.status != Spam
    ensures r.Err? ==> r.error.status == 422
    ensures r.Ok? ==> r.value.message == "Comment marked as spam" && r.value.status == "spam"
                      && r.value.id == c.id && r.value.ipAddress == c.ipAddress
  {
    match CommentService.SpamComment(c)
    case Ok(q) => Ok(ResponseFor(q))
    case Err(e) => Err(e)
  }

  /** `handle`: no payload. */
  method Handle(service: CommentService.CommentService, id: int) returns (r: Result<Response>)
    requires service.Valid() && Repo.Live(service.repository.rows, id)
    modifies service.repository, service.cache
    ensures service.Valid()
    ensures r == Outcome(old(service.repository.rows)[id])
    ensures service.repository.rows == if r.Ok? then old(service.repository.rows)[id := old(service.repository.rows)[id].(status := Spam)]
                                       else old(service.repository.rows)
    ensures service.repository.nextId == old(service.repository.nextId)
    ensures service.cache.keys == if r.Ok? then old(service.cache.keys) - {CommentService.CommentsListKey, CommentService.PostCommentsKey(old(service.repository.rows)[id].postId)}
                                  else old(service.cache.keys)
  {
    var res := service.MarkAsSpam(id);
    match res
    case Ok(q) => r := Ok(ResponseFor(q));
    case Err(e) => r := Err(e);
  }
}
