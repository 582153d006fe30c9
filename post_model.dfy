/** The Post entity of app/Models/Post.php: its status constants, its stored
    attributes, the helper predicates, the published scope and the slug hook
    that runs when a post is created. */
module PostModel {
  import opened Common

  /** The `status` column (an enum of four values). */
  datatype PostStatus = Draft | Pending | Published | Archived

  /** The STATUS_* constants: the string stored for each status. */
  function StatusName(s: PostStatus): string {
    match s
    case Draft => "draft"
    case Pending => "pending"
    case Published => "published"
    case Archived => "archived"
  }

  /** A row of the posts table. Timestamps other than `published_at` are not
      modelled; `deleted` is the soft-delete marker (`deleted_at` not null) and
      `tagIds` the post's rows in the post_tag pivot table. */
  datatype Post = Post(
    id: int,
    userId: int,
    categoryId: Option<int>,
    title: string,
    slug: string,
    excerpt: Option<string>,
    content: string,
    featuredImage: Option<string>,
    status: PostStatus,
    isFeatured: bool,
    viewsCount: nat,
    likesCount: nat,
    publishedAt: Option<int>,
    tagIds: set<int>,
    deleted: bool)

  /** `isPublished()`: the status says published and the publication time,
      which must be set, is not in the future. */
  predicate IsPublished(p: Post, now: int) {
    p.status == Published && p.publishedAt.Some? && p.publishedAt.value <= now
  }

  /** `isDraft()`. */
  predicate IsDraft(p: Post) {
    p.status == Draft
  }

  /** `canBePublished()`: only drafts and posts awaiting review can be published. */
  predicate CanBePublished(p: Post) {
    p.status in [Draft, Pending]
  }

  lemma CanBePublishedExactly(p: Post)
    ensures CanBePublished(p) <==> p.status == Draft || p.status == Pending
    ensures CanBePublished(p) ==> forall now :: !IsPublished(p, now)
  {
  }

  /** `scopePublished` over the posts table: its three `where` clauses, on
      the rows the soft-delete scope leaves visible. */
  function PublishedScope(rows: map<int, Post>, now: int): (ids: set<int>)
    ensures forall id :: id in ids <==> id in rows && !rows[id].deleted && IsPublished(rows[id], now)
  {
    set id | id in rows && !rows[id].deleted
                        && rows[id].status == Published
                        && rows[id].publishedAt != None
                        && rows[id].publishedAt.value <= now
  }

  /** The `creating` hook: a slug that PHP's `empty()` rejects is replaced by
      the slug of the title; any other slug is kept. */
  function CreatingSlug(slug: string, title: string, slugify: string -> string): string {
    if PhpEmpty(slug) then slugify(title) else slug
  }

  lemma CreatingHookKeepsNonEmptySlug(slug: string, title: string, slugify: string -> string)
    ensures slug != "" && slug != "0" ==> CreatingSlug(slug, title, slugify) == slug
    ensures slug == "" ==> CreatingSlug(slug, title, slugify) == slugify(title)
  {
  }

  /** Because the hook tests with `empty()`, an explicit slug "0" is also
      replaced by the slug of the title. */
  lemma CreatingHookReplacesZeroSlug(title: string, slugify: string -> string)
    ensures CreatingSlug("0", title, slugify) == slugify(title)
  {
  }
}
