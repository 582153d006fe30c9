/** The Comment entity of app/Models/Comment.php: its status constants, its
    stored attributes and the helper predicates. */
module CommentModel {
  import opened Common

  /** The `status` column (an enum of four values). */
  datatype CommentStatus = Pending | Approved | Spam | Rejected

  /** The STATUS_* constants: the string stored for each status. */
  function StatusName(s: CommentStatus): string {
    match s
    case Pending => "pending"
    case Approved => "approved"
    case Spam => "spam"
    case Rejected => "rejected"
  }

  /** The four names are distinct, so the stored string determines the status. */
  lemma StatusNameInjective(a: CommentStatus, b: CommentStatus)
    ensures StatusName(a) == StatusName(b) ==> a == b
  {
    if StatusName(a) == StatusName(b) {
      assert StatusName(a)[0] == StatusName(b)[0];
      assert |StatusName(a)| == |StatusName(b)|;
    }
  }

  /** A row of the comments table. Timestamps are not modelled; `deleted` is the
      soft-delete marker. A guest's comment has no `userId` and carries the name
      and e-mail given with it. */
  datatype Comment = Comment(
    id: int,
    postId: int,
    userId: Option<int>,
    parentId: Option<int>,
    authorName: Option<string>,
    authorEmail: Option<string>,
    content: string,
    status: CommentStatus,
    ipAddress: Option<string>,
    deleted: bool)

  /** `isApproved()`. */
  predicate IsApproved(c: Comment) {
    c.status == Approved
  }

  /** `isPending()`. */
  predicate IsPending(c: Comment) {
    c.status == Pending
  }

  /** `getAuthorDisplayName()`: the linked user's name, else the stored author
      name, else "Anonymous". `users` is the users table the `author` relation
      reads. */
  function AuthorDisplayName(c: Comment, users: map<int, User>): (name: string)
    ensures c.userId.Some? && c.userId.value in users ==> name == users[c.userId.value].name
    ensures (c.userId.None? || c.userId.value !in users) && c.authorName.Some? ==> name == c.authorName.value
    ensures (c.userId.None? || c.userId.value !in users) && c.authorName.None? ==> name == "Anonymous"
  {
    var author: Option<User> := if c.userId.Some? && c.userId.value in users then Some(users[c.userId.value]) else None;
    if author.Some? then author.value.name else c.authorName.GetOr("Anonymous")
  }
}
