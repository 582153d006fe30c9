/** The three roles the policies recognise, all read off the user's e-mail
    address: the single administrator account, editors and moderators. */
module Roles {
  import opened Common
  import opened Strings

  /** The administrator's address. */
  const AdminEmail: string := "admin@example.com"

  /** The domain suffixes that make a user an editor or a moderator. */
  const EditorSuffix: string := "@editor.com"
  const ModeratorSuffix: string := "@moderator.com"

  /** `isAdmin()`: exactly the one administrator address. */
  predicate IsAdmin(u: User) {
    u.email == AdminEmail
  }

  /** `isEditor()`: an address ending in "@editor.com". */
  predicate IsEditor(u: User) {
    EndsWith(u.email, EditorSuffix)
  }

  /** `isModerator()`: an address ending in "@moderator.com". */
  predicate IsModerator(u: User) {
    EndsWith(u.email, ModeratorSuffix)
  }

  /** An editor is anyone whose address is some local part followed by
      "@editor.com", and likewise for moderators. */
  lemma RoleBySuffix(u: User)
    ensures IsEditor(u) <==> exists local: string :: u.email == local + EditorSuffix
    ensures IsModerator(u) <==> exists local: string :: u.email == local + ModeratorSuffix
  {
    EndsWithIffSplit(u.email, EditorSuffix);
    EndsWithIffSplit(u.email, ModeratorSuffix);
  }

  /** The roles are disjoint: the administrator is neither an editor nor a
      moderator, and no address is both an editor's and a moderator's. */
  lemma RolesDisjoint(u: User)
    ensures IsAdmin(u) ==> !IsEditor(u) && !IsModerator(u)
    ensures !(IsEditor(u) && IsModerator(u))
  {
    assert AdminEmail[6] == 'e';
    assert |AdminEmail| == 17;
    if EndsWith(u.email, ModeratorSuffix) {
      var e := u.email;
      assert e[|e| - 14..][3] == 'd';
      assert e[|e| - 11] == 'd';
    }
  }
}
