/** app/Policies/PostPolicy.php: who may do what with a post. Every ability
    except `view` and `viewAny` is checked for a signed-in user only. */
module PostPolicy {
  import opened Common
  import opened Roles
  import opened PostModel

  /** `viewAny`: everyone, guests included, may list posts. */
  predicate ViewAny(u: Option<User>) {
    true
  }

  /** `view`: a published post is public; anything else only for its author
      or the administrator. */
  predicate View(u: Option<User>, p: Post, now: int) {
    IsPublished(p, now) || (u.Some? && (u.value.id == p.userId || IsAdmin(u.value)))
  }

  /** `create`: every signed-in user. */
  predicate Create(u: User) {
    true
  }

  /** The rule `update`, `delete` and `restore` share: the author or the administrator. */
  predicate OwnerOrAdmin(u: User, p: Post) {
    u.id == p.userId || IsAdmin(u)
  }

  /** `update`. */
  predicate Update(u: User, p: Post) {
    OwnerOrAdmin(u, p)
  }

  /** `delete`. */
  predicate Delete(u: User, p: Post) {
    OwnerOrAdmin(u, p)
  }

  /** `restore`. */
  predicate Restore(u: User, p: Post) {
    OwnerOrAdmin(u, p)
  }

  /** `forceDelete`: the administrator only. */
  predicate ForceDelete(u: User, p: Post) {
    IsAdmin(u)
  }

  /** `feature`: the administrator or an editor, whoever wrote the post. */
  predicate Feature(u: User, p: Post) {
    IsAdmin(u) || IsEditor(u)
  }

  /** `publish`: the author, the administrator or an editor. */
  predicate Publish(u: User, p: Post) {
    if u.id == p.userId then true else IsAdmin(u) || IsEditor(u)
  }

  /** A guest sees exactly the published posts. */
  lemma GuestSeesPublishedOnly(p: Post, now: int)
    ensures View(None, p, now) <==> IsPublished(p, now)
  {
  }

  /** The administrator holds every ability on every post. */
  lemma AdminMayDoAnything(u: User, p: Post, now: int)
    requires IsAdmin(u)
    ensures View(Some(u), p, now) && Update(u, p) && Delete(u, p) && Restore(u, p)
    ensures ForceDelete(u, p) && Feature(u, p) && Publish(u, p)
  {
  }

  /** Whoever may update a post may publish it, and editors may publish
      posts they may not update. */
  lemma PublishWidensUpdate(u: User, p: Post)
    ensures Update(u, p) ==> Publish(u, p)
    ensures IsEditor(u) && u.id != p.userId ==> Publish(u, p) && !Update(u, p)
  {
    RolesDisjoint(u);
  }

  /** Featuring ignores authorship: an author who is neither administrator
      nor editor cannot feature their own post, and a permanent delete is
      the administrator's alone. */
  lemma AuthorshipLimits(u: User, p: Post)
    requires u.id == p.userId && !IsAdmin(u) && !IsEditor(u)
    ensures Update(u, p) && Delete(u, p) && Publish(u, p)
    ensures !Feature(u, p) && !ForceDelete(u, p)
  {
  }
}
