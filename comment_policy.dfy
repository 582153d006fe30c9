/** app/Policies/CommentPolicy.php: who may see, edit, delete and moderate a
    comment. A comment's post is passed as the id of its author,
    `postOwnerId` (`$comment->post->user_id`). */
module CommentPolicy {
  import opened Common
  import opened Roles
  import opened CommentModel

  /** `viewAny`: everyone. */
  predicate ViewAny(u: Option<User>) {
    true
  }

  /** Whether `u` wrote `c`: a guest comment has no user id and matches nobody. */
  predicate Wrote(u: User, c: Comment) {
    c.userId == Some(u.id)
  }

  /** `view`: an approved comment is public; otherwise its author, the
      post's author and the administrator may see it. */
  predicate View(u: Option<User>, c: Comment, postOwnerId: int) {
    IsApproved(c) || (u.Some? && (Wrote(u.value, c) || u.value.id == postOwnerId || IsAdmin(u.value)))
  }

  /** `create`: everyone, guests included. */
  predicate Create(u: Option<User>) {
    true
  }

  /** `update`: the comment's author or the administrator. */
  predicate Update(u: User, c: Comment) {
    Wrote(u, c) || IsAdmin(u)
  }

  /** `delete`: also the post's author. */
  predicate Delete(u: User, c: Comment, postOwnerId: int) {
    Wrote(u, c) || u.id == postOwnerId || IsAdmin(u)
  }

  /** `moderate`: the post's author, the administrator or a moderator. */
  predicate Moderate(u: User, c: Comment, postOwnerId: int) {
    u.id == postOwnerId || IsAdmin(u) || IsModerator(u)
  }

  /** A guest sees exactly the approved comments. */
  lemma GuestSeesApprovedOnly(c: Comment, postOwnerId: int)
    ensures View(None, c, postOwnerId) <==> IsApproved(c)
  {
  }

  /** A guest's comment can be edited by the administrator only. */
  lemma GuestCommentEditedByAdminOnly(u: User, c: Comment)
    requires c.userId.None?
    ensures Update(u, c) <==> IsAdmin(u)
  {
  }

  /** Whoever may edit a comment may delete it; the post's author may
      delete but not edit other people's comments. */
  lemma DeleteWidensUpdate(u: User, c: Comment, postOwnerId: int)
    ensures Update(u, c) ==> Delete(u, c, postOwnerId)
    ensures u.id == postOwnerId && !Wrote(u, c) && !IsAdmin(u) ==> Delete(u, c, postOwnerId) && !Update(u, c)
  {
  }

  /** Writing a comment gives no right to moderate it: moderation depends
      only on the user and the post's author, never on the comment. */
  lemma ModerationIgnoresAuthorship(u: User, c1: Comment, c2: Comment, postOwnerId: int)
    ensures Moderate(u, c1, postOwnerId) == Moderate(u, c2, postOwnerId)
    ensures Wrote(u, c1) && u.id != postOwnerId && !IsAdmin(u) && !IsModerator(u) ==> !Moderate(u, c1, postOwnerId)
  {
  }
}
