/** The `queryGate()` configuration of app/Models/Comment.php: the filter,
    operator, projection and sort tables, the `content` raw filter and the
    create action's handler, which writes the row itself instead of going
    through the comment service. */
module CommentGate {
  import opened Common
  import opened Strings
  import opened QueryGate
  import opened CommentModel
  import CommentRepository
  import CommentService
  import ApproveComment
  import RejectComment
  import MarkAsSpam

  /** The comment tables. */
  const Filters: FilterSpec := FilterSpec(
    map[
      "post_id" := ["integer"],
      "user_id" := ["integer"],
      "parent_id" := ["integer"],
      "status" := ["string", "in:pending,approved,spam,rejected"],
      "author_name" := ["string", "max:100"],
      "author_email" := ["string", "email"],
      "content" := ["string", "max:255"],
      "created_at" := ["date"],
      "post.title" := ["string", "max:255"],
      "post.status" := ["string", "in:draft,pending,published,archived"],
      "author.name" := ["string", "max:100"]],
    map[
      "post_id" := [Eq, In],
      "user_id" := [Eq, In],
      "parent_id" := [Eq],
      "status" := [Eq, In, Neq],
      "author_name" := [Eq, Like],
      "author_email" := [Eq],
      "content" := [Like],
      "created_at" := [Eq, Gte, Lte, Between],
      "post.title" := [Like],
      "post.status" := [Eq],
      "author.name" := [Like]],
    ["id", "post_id", "user_id", "parent_id", "author_name", "author_email", "content", "status", "created_at",
     "post.id", "post.title", "post.slug", "author.id", "author.name"],
    ["created_at", "status"],
    {"content"})

  /** Every field with operators is a declared filter, the one raw filter is
      `content`, and `content` admits `like` only. */
  lemma FiltersFacts()
    ensures WellFormed(Filters)
    ensures Filters.rawFilters == {"content"}
    ensures "content" in Filters.allowedFilters && Filters.allowedFilters["content"] == [Like]
  {
  }

  /** The `content` closure: a substring match, whatever the operator. */
  predicate ContentFilter(content: string, op: Operator, value: string) {
    Contains(content, value)
  }

  /** The operator makes no difference, an empty value matches every
      comment, and a longer value matches fewer comments. */
  lemma ContentFilterMeaning(content: string, op1: Operator, op2: Operator, value: string, i: nat, j: nat)
    requires i <= j <= |value|
    ensures ContentFilter(content, op1, value) <==> ContentFilter(content, op2, value)
    ensures ContentFilter(content, op1, "")
    ensures ContentFilter(content, op1, value) ==> ContentFilter(content, op1, value[i..j])
  {
    ContainsEmpty(content);
    if Contains(content, value) {
      ContainsPiece(content, value, i, j);
    }
  }

  /** The validated payload of the create action. */
  datatype CreatePayload = CreatePayload(
    postId: int,
    parentId: Option<int>,
    authorName: Option<string>,
    authorEmail: Option<string>,
    content: string)

  /** The row the create handler saves: the payload, then the requester's id,
      the request's address and a status that depends only on whether someone
      is signed in. */
  function HandlerRow(payload: CreatePayload, user: Option<User>, ip: Option<string>): Comment {
    Comment(0, payload.postId,
            if user.Some? then Some(user.value.id) else None,
            payload.parentId, payload.authorName, payload.authorEmail, payload.content,
            if user.Some? then Approved else Pending,
            ip, false)
  }

  /** A signed-in requester's comment is approved and linked to them; a
      guest's is pending and unlinked. Unlike the service's `create`, the
      handler does not fill the name and e-mail from the account, yet the
      display name still comes from the account when it exists. */
  lemma HandlerRowContract(payload: CreatePayload, user: Option<User>, ip: Option<string>, users: map<int, User>)
    ensures var c := HandlerRow(payload, user, ip);
      && (IsApproved(c) <==> user.Some?)
      && (IsPending(c) <==> user.None?)
      && c.userId == (if user.Some? then Some(user.value.id) else None)
      && c.ipAddress == ip
      && c.authorName == payload.authorName && c.authorEmail == payload.authorEmail
      && (user.Some? && user.value.id in users ==> AuthorDisplayName(c, users) == users[user.value.id].name)
  {
  }

  /** The handler and the service store the same row whenever the payload
      names the author and the address arrives with the data. */
  lemma HandlerAgreesWithService(payload: CreatePayload, user: Option<User>, ip: Option<string>)
    requires payload.authorName.Some? && payload.authorEmail.Some?
    ensures HandlerRow(payload, user, ip) ==
      CommentService.NewComment(payload.postId,
        CommentService.CommentData(payload.parentId, payload.authorName, payload.authorEmail, payload.content, ip), user)
  {
  }

  /** The create handler: fill, assign, save. */
  method CreateHandle(repository: CommentRepository.CommentRepository, payload: CreatePayload, user: Option<User>, ip: Option<string>)
    returns (r: Comment)
    requires repository.Valid()
    modifies repository
    ensures repository.Valid()
    ensures r == HandlerRow(payload, user, ip).(id := old(repository.nextId))
    ensures repository.rows == old(repository.rows)[r.id := r] && repository.nextId == old(repository.nextId) + 1
  {
    var row := Comment(0, payload.postId, None, payload.parentId, payload.authorName, payload.authorEmail,
                       payload.content, Pending, None, false);
    row := row.(userId := if user.Some? then Some(user.value.id) else None);
    row := row.(ipAddress := ip);
    row := row.(status := if user.Some? then Approved else Pending);
    r := repository.Create(row);
  }

  /** The custom actions the comment endpoint registers, in order. */
  function CustomActions(): (acts: seq<ActionDescriptor>)
    ensures |acts| == 3
    ensures forall i, j :: 0 <= i < j < |acts| ==> acts[i].action != acts[j].action
    ensures forall i :: 0 <= i < |acts| ==> acts[i].httpMethod == "POST" && acts[i].status == 200
  {
    [ApproveComment.Descriptor(), RejectComment.Descriptor(), MarkAsSpam.Descriptor()]
  }

  /** The three moderation actions are open to the same users: a guest is
      refused by each, and whoever may run one may run the others. */
  lemma ModerationActionsAgree(u: Option<User>, c: Comment, postOwnerId: int)
    ensures !ApproveComment.Authorize(None, c, postOwnerId)
    ensures ApproveComment.Authorize(u, c, postOwnerId) == RejectComment.Authorize(u, c, postOwnerId)
                                                        == MarkAsSpam.Authorize(u, c, postOwnerId)
  {
  }

  /** Whatever a comment's status, at most one of the three actions is
      refused as a repetition, and a rejected or spam comment can still be
      approved. */
  lemma ModerationOutcomes(c: Comment, users: map<int, User>, payload: RejectComment.Payload)
    ensures ApproveComment.Outcome(c, users).Err? ==> RejectComment.Outcome(c, payload).Ok? && MarkAsSpam.Outcome(c).Ok?
    ensures RejectComment.Outcome(c, payload).Err? ==> ApproveComment.Outcome(c, users).Ok? && MarkAsSpam.Outcome(c).Ok?
    ensures MarkAsSpam.Outcome(c).Err? ==> ApproveComment.Outcome(c, users).Ok? && RejectComment.Outcome(c, payload).Ok?
  {
  }
}
