/** The `queryGate()` configuration of app/Models/Post.php: the three API
    version blocks with their filter, operator, projection and sort tables,
    the raw filter closures of the 2025-01-01 block, the status rule of the
    create action, and the create/update handlers that hand the payload to
    the post service. */
module PostGate {
  import opened Common
  import opened Strings
  import opened QueryGate
  import opened PostModel
  import CommentModel
  import CommentRepository
  import PostService
  import PublishPost
  import UnpublishPost
  import ArchivePost
  import FeaturePost
  import UnfeaturePost
  import DuplicatePost
  import BulkPublishPosts

  /** The rules every status filter uses. */
  const StatusRules: seq<string> := ["string", "in:draft,pending,published,archived"]

  /** The 2024-01-01 block: the basic API. */
  const Version1: FilterSpec := FilterSpec(
    map[
      "title" := ["string", "max:255"],
      "status" := StatusRules,
      "created_at" := ["date"]],
    map[
      "title" := [Eq, Like],
      "status" := [Eq],
      "created_at" := [Gte, Lte]],
    ["id", "title", "slug", "status", "created_at"],
    ["created_at", "title"],
    {})

  /** The 2024-06-01 block: more filters and the author and category relations. */
  const Version2: FilterSpec := FilterSpec(
    map[
      "title" := ["string", "max:255"],
      "status" := StatusRules,
      "is_featured" := ["boolean"],
      "user_id" := ["integer"],
      "category_id" := ["integer"],
      "created_at" := ["date"],
      "published_at" := ["date"],
      "author.name" := ["string", "max:100"],
      "category.slug" := ["string", "max:100"]],
    map[
      "title" := [Eq, Like],
      "status" := [Eq, In, Neq],
      "is_featured" := [Eq],
      "user_id" := [Eq],
      "category_id" := [Eq, In],
      "created_at" := [Gte, Lte, Between],
      "published_at" := [Gte, Lte, Between],
      "author.name" := [Like],
      "category.slug" := [Eq]],
    ["id", "title", "slug", "excerpt", "status", "is_featured", "views_count", "created_at", "published_at",
     "author.name", "category.name", "category.slug"],
    ["created_at", "published_at", "title", "views_count"],
    {})

  /** The operators of the numeric and date fields of the 2025-01-01 block. */
  const Ranged: seq<Operator> := [Eq, Gt, Gte, Lt, Lte, Between]

  /** The 2025-01-01 block: everything, with three raw filters. */
  const Version3: FilterSpec := FilterSpec(
    map[
      "title" := ["string", "max:255"],
      "slug" := ["string", "max:255"],
      "status" := StatusRules,
      "is_featured" := ["boolean"],
      "user_id" := ["integer"],
      "category_id" := ["integer"],
      "views_count" := ["integer"],
      "likes_count" := ["integer"],
      "created_at" := ["date"],
      "updated_at" := ["date"],
      "published_at" := ["date"],
      "author.name" := ["string", "max:100"],
      "author.email" := ["string", "email"],
      "category.slug" := ["string", "max:100"],
      "category.is_active" := ["boolean"],
      "tag_slugs" := ["string", "max:255"],
      "comment_status" := ["string", "in:pending,approved,spam,rejected"]],
    map[
      "title" := [Eq, Like, Neq],
      "slug" := [Eq],
      "status" := [Eq, In, Neq, NotIn],
      "is_featured" := [Eq],
      "user_id" := [Eq, In],
      "category_id" := [Eq, In, Neq],
      "views_count" := Ranged,
      "likes_count" := Ranged,
      "created_at" := Ranged,
      "updated_at" := Ranged,
      "published_at" := Ranged,
      "author.name" := [Eq, Like],
      "author.email" := [Eq, Like],
      "category.slug" := [Eq, In],
      "category.is_active" := [Eq],
      "tag_slugs" := [Eq, In],
      "comment_status" := [Eq, In]],
    ["id", "title", "slug", "excerpt", "content", "featured_image", "status", "is_featured", "views_count",
     "likes_count", "created_at", "updated_at", "published_at", "author.id", "author.name", "author.email",
     "category.id", "category.name", "category.slug", "tags.id", "tags.name", "tags.slug"],
    ["created_at", "updated_at", "published_at", "title", "views_count", "likes_count"],
    {"title", "tag_slugs", "comment_status"})

  /** The version blocks in declaration order. */
  function Versions(): (vs: seq<VersionSpec>)
    ensures |vs| == 3
    ensures vs[0].effective == Date(2024, 1, 1) && vs[1].effective == Date(2024, 6, 1) && vs[2].effective == Date(2025, 1, 1)
    ensures ChronologicallyOrdered(vs)
    ensures forall i :: 0 <= i < |vs| ==> WellFormed(vs[i].spec)
    ensures forall i, j :: 0 <= i < j < |vs| ==> Extends(vs[i].spec, vs[j].spec)
    ensures "status" in vs[0].spec.allowedFilters && "created_at" in vs[0].spec.allowedFilters
    ensures vs[0].spec.allowedFilters["status"] == [Eq] && vs[0].spec.allowedFilters["created_at"] == [Gte, Lte]
    ensures vs[0].spec.rawFilters == {} && vs[1].spec.rawFilters == {}
    ensures vs[2].spec.rawFilters == {"title", "tag_slugs", "comment_status"}
  {
    Version1Facts();
    Version2Facts();
    Version3Facts();
    ExtendsTransitive(Version1, Version2, Version3);
    [VersionSpec(Date(2024, 1, 1), Version1), VersionSpec(Date(2024, 6, 1), Version2), VersionSpec(Date(2025, 1, 1), Version3)]
  }

  lemma Version1Facts()
    ensures WellFormed(Version1)
    ensures Extends(Version1, Version2)
  {
  }

  lemma Version2Facts()
    ensures WellFormed(Version2)
    ensures Extends(Version2, Version3)
  {
    Version2OperatorsKept();
    assert FieldsExtend(Version2.select, Version3.select);
    assert FieldsExtend(Version2.sorts, Version3.sorts);
  }

  lemma Version2OperatorsKept()
    ensures OperatorsExtend(Version2.allowedFilters, Version3.allowedFilters)
  {
    var a, b := Version2.allowedFilters, Version3.allowedFilters;
    forall f | f in a
      ensures f in b && forall k :: 0 <= k < |a[f]| ==> a[f][k] in b[f]
    {
      if f == "title" {} else if f == "status" {} else if f == "is_featured" {}
      else if f == "user_id" {} else if f == "category_id" {} else if f == "created_at" {}
      else if f == "published_at" {} else if f == "author.name" {} else {
        assert f == "category.slug";
      }
    }
  }

  lemma Version3Facts()
    ensures WellFormed(Version3)
  {
  }

  /** A table extending one that extends a third extends the third. */
  lemma ExtendsTransitive(a: FilterSpec, b: FilterSpec, c: FilterSpec)
    requires Extends(a, b) && Extends(b, c)
    ensures Extends(a, c)
  {
    var fa, fb, fc := a.allowedFilters, b.allowedFilters, c.allowedFilters;
    forall f | f in fa
      ensures f in fc && forall k :: 0 <= k < |fa[f]| ==> fa[f][k] in fc[f]
    {
      forall k | 0 <= k < |fa[f]|
        ensures fa[f][k] in fc[f]
      {
        assert f in fb && fa[f][k] in fb[f];
        var kb :| 0 <= kb < |fb[f]| && fb[f][kb] == fa[f][k];
      }
    }
    forall k | 0 <= k < |a.select|
      ensures a.select[k] in c.select
    {
      var kb :| 0 <= kb < |b.select| && b.select[kb] == a.select[k];
    }
    forall k | 0 <= k < |a.sorts|
      ensures a.sorts[k] in c.sorts
    {
      var kb :| 0 <= kb < |b.sorts| && b.sorts[kb] == a.sorts[k];
    }
  }

  // ---------------------------------------------------------------------
  // Raw filters of the 2025-01-01 block
  // ---------------------------------------------------------------------

  /** The `title` closure: `like` is a substring match, `eq` equality and any
      other operator inequality. */
  predicate TitleFilter(title: string, op: Operator, value: string) {
    if op == Like then Contains(title, value)
    else if op == Eq then title == value
    else title != value
  }

  /** On the operators the block admits for `title` the closure means what
      the operator says, and an exact match is also a substring match. */
  lemma TitleFilterMeaning(title: string, value: string)
    ensures TitleFilter(title, Like, value) <==> Contains(title, value)
    ensures TitleFilter(title, Eq, value) <==> title == value
    ensures TitleFilter(title, Neq, value) <==> !TitleFilter(title, Eq, value)
    ensures TitleFilter(title, Eq, value) ==> TitleFilter(title, Like, value)
  {
    if title == value { ContainsSelf(title); }
  }

  /** The values an `in` filter tests against: a list as given, or a string
      split at commas. */
  function InValues(value: FilterValue): seq<string> {
    match value
    case Many(items) => items
    case Scalar(text) => Split(text, ',')
  }

  /** The body of the `whereHas` closures: with `in`, some related value is
      among the listed values; otherwise some related value equals the given
      one. The filter rules declare the value a string, so an operator other
      than `in` receives a single string. */
  predicate RelatedFilter(related: set<string>, op: Operator, value: FilterValue)
    requires op != In ==> value.Scalar?
  {
    if op == In then exists k :: 0 <= k < |InValues(value)| && InValues(value)[k] in related
    else value.text in related
  }

  /** Sending the values joined by commas filters like sending the list,
      and `in` with one comma-free value is the same as `eq` with it. */
  lemma RelatedFilterCommaList(related: set<string>, vals: seq<string>)
    requires |vals| >= 1
    requires forall k :: 0 <= k < |vals| ==> ',' !in vals[k]
    ensures RelatedFilter(related, In, Scalar(Join(vals, ','))) <==> RelatedFilter(related, In, Many(vals))
    ensures |vals| == 1 ==> (RelatedFilter(related, In, Scalar(vals[0])) <==> RelatedFilter(related, Eq, Scalar(vals[0])))
  {
    SplitJoin(vals, ',');
    assert InValues(Scalar(Join(vals, ','))) == InValues(Many(vals));
    if |vals| == 1 {
      SingleValueIn(related, vals[0]);
    }
  }

  lemma SingleValueIn(related: set<string>, v: string)
    requires ',' !in v
    ensures RelatedFilter(related, In, Scalar(v)) <==> v in related
  {
    SplitPlain(v, ',');
    assert InValues(Scalar(v)) == [v];
    if v in related {
      assert InValues(Scalar(v))[0] in related;
    }
  }

  /** The `tag_slugs` closure over the slugs of the post's tags (tags are
      never soft-deleted). */
  predicate TagSlugsFilter(tagSlugs: set<string>, op: Operator, value: FilterValue)
    requires op != In ==> value.Scalar?
  {
    RelatedFilter(tagSlugs, op, value)
  }

  /** The statuses of the post's comments that `whereHas('comments')` sees:
      soft-deleted comments are skipped. */
  function CommentStatuses(comments: map<int, CommentModel.Comment>, postId: int): (names: set<string>)
    ensures forall id :: CommentRepository.Live(comments, id) && comments[id].postId == postId ==>
      CommentModel.StatusName(comments[id].status) in names
    ensures forall n :: n in names ==>
      (exists id :: CommentRepository.Live(comments, id) && comments[id].postId == postId &&
        CommentModel.StatusName(comments[id].status) == n)
  {
    set id | id in comments && !comments[id].deleted && comments[id].postId == postId
      :: CommentModel.StatusName(comments[id].status)
  }

  /** The `comment_status` closure. */
  predicate CommentStatusFilter(comments: map<int, CommentModel.Comment>, postId: int, op: Operator, value: FilterValue)
    requires op != In ==> value.Scalar?
  {
    RelatedFilter(CommentStatuses(comments, postId), op, value)
  }

  /** A post passes `comment_status = s` exactly when one of its visible
      comments has status s; a post without visible comments never passes. */
  lemma CommentStatusFilterMeaning(comments: map<int, CommentModel.Comment>, postId: int, s: CommentModel.CommentStatus)
    ensures CommentStatusFilter(comments, postId, Eq, Scalar(CommentModel.StatusName(s))) <==>
      exists id :: CommentRepository.Live(comments, id) && comments[id].postId == postId && comments[id].status == s
  {
    var name := CommentModel.StatusName(s);
    if name in CommentStatuses(comments, postId) {
      var id :| id in comments && !comments[id].deleted && comments[id].postId == postId
                && CommentModel.StatusName(comments[id].status) == name;
      CommentModel.StatusNameInjective(comments[id].status, s);
    }
  }

  // ---------------------------------------------------------------------
  // The create and update actions
  // ---------------------------------------------------------------------

  /** The status a stored string denotes, if any. */
  function StatusFromName(name: string): Option<PostStatus> {
    if name == "draft" then Some(Draft)
    else if name == "pending" then Some(Pending)
    else if name == "published" then Some(Published)
    else if name == "archived" then Some(Archived)
    else None
  }

  /** Parsing the stored string gives back the status. */
  lemma StatusNameRoundTrip(s: PostStatus)
    ensures StatusFromName(StatusName(s)) == Some(s)
  {
  }

  /** The create action's `status` rule: absent, or one of "draft" and "pending". */
  predicate CreateStatusAllowed(status: Option<string>) {
    status.None? || status.value in ["draft", "pending"]
  }

  /** The rule admits exactly the two starting statuses, so no post is
      created published or archived. */
  lemma CreateStatusRule(status: Option<string>, id: int, author: User, data: PostService.PostData, slug: string, now: int)
    requires CreateStatusAllowed(status)
    requires data.status == (if status.Some? then StatusFromName(status.value) else None)
    ensures status.Some? ==> data.status.Some? && (data.status.value == Draft || data.status.value == Pending)
    ensures var p := PostService.NewPost(id, author, data, slug);
      CanBePublished(p) && !IsPublished(p, now) && p.status != Archived
  {
  }

  /** The status rule refuses the two other statuses. */
  lemma CreateStatusRefused()
    ensures !CreateStatusAllowed(Some("published")) && !CreateStatusAllowed(Some("archived"))
    ensures CreateStatusAllowed(None) && CreateStatusAllowed(Some("draft")) && CreateStatusAllowed(Some("pending"))
  {
    assert "published"[0] == 'p' && "published"[1] == 'u';
    assert "archived"[0] == 'a';
  }

  /** The create action's handler. */
  method CreateHandle(service: PostService.PostService, user: User, payload: PostService.PostData, slugify: string -> string)
    returns (r: Result<Post>, ghost probed: string)
    requires service.Valid()
    modifies service, service.cache
    ensures service.Valid()
    ensures PostService.IsFirstFree(PostService.UsedSlugs(old(service.posts), None),
      PostService.CreateSlugBase(payload, slugify), probed)
    ensures r.Ok? ==> && r.value == PostService.NewPost(old(service.nextId), user, payload,
                           CreatingSlug(probed, payload.title, slugify))
                      && r.value.id == old(service.nextId) && r.value.userId == user.id
                      && r.value.title == payload.title && r.value.content == payload.content
                      && r.value.status == (if payload.status.Some? then payload.status.value else Draft)
                      && service.posts == old(service.posts)[r.value.id := r.value]
                      && service.nextId == old(service.nextId) + 1
                      && service.cache.keys == old(service.cache.keys) - {PostService.PostsListKey}
    ensures r.Err? ==> && r.error.status == 500 && service.posts == old(service.posts)
                       && service.nextId == old(service.nextId) && service.cache.keys == old(service.cache.keys)
  {
    r, probed := service.Create(user, payload, slugify);
  }

  /** The update action's handler. */
  method UpdateHandle(service: PostService.PostService, id: int, payload: PostService.PostPatch, slugify: string -> string)
    returns (r: Post)
    requires service.Valid() && PostService.Found(service.posts, id)
    modifies service, service.cache
    ensures service.Valid()
    ensures match PostService.UpdateSlugBase(old(service.posts)[id], payload, slugify)
      case None => r.slug == old(service.posts)[id].slug
      case Some(base) => PostService.IsFirstFree(PostService.UsedSlugs(old(service.posts), Some(id)), base, r.slug)
    ensures r == PostService.ApplyPatch(old(service.posts)[id], payload, r.slug)
    ensures service.posts == old(service.posts)[id := r] && service.nextId == old(service.nextId)
    ensures service.cache.keys == old(service.cache.keys) - {PostService.PostsListKey}
  {
    r := service.Update(id, payload, slugify);
  }

  /** The custom actions the post endpoint registers, in order. */
  function CustomActions(): (acts: seq<ActionDescriptor>)
    ensures |acts| == 7
    ensures forall i, j :: 0 <= i < j < |acts| ==> acts[i].action != acts[j].action
    ensures forall i :: 0 <= i < |acts| ==> acts[i].httpMethod == "POST"
    ensures forall i :: 0 <= i < |acts| ==> acts[i].status == (if acts[i].action == "duplicate" then 201 else 200)
  {
    [PublishPost.Descriptor(), UnpublishPost.Descriptor(), ArchivePost.Descriptor(), FeaturePost.Descriptor(),
     UnfeaturePost.Descriptor(), DuplicatePost.Descriptor(), BulkPublishPosts.Descriptor()]
  }

  /** Every post action fails, rather than refusing, when no user is signed
      in; a signed-in user may always duplicate and bulk-publish. */
  lemma PostActionsNeedAUser(p: Post, u: User)
    ensures PublishPost.Authorize(None, p).Err? && UnpublishPost.Authorize(None, p).Err?
    ensures ArchivePost.Authorize(None, p).Err? && FeaturePost.Authorize(None, p).Err?
    ensures UnfeaturePost.Authorize(None, p).Err? && DuplicatePost.Authorize(None, p).Err?
    ensures BulkPublishPosts.Authorize(None).Err?
    ensures DuplicatePost.Authorize(Some(u), p) == Ok(true) && BulkPublishPosts.Authorize(Some(u)) == Ok(true)
  {
  }
}
