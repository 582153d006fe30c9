/** app/Services/PostService.php: the post lifecycle. The service owns the
    posts table (the PostRepository it delegates to is a thin wrapper over the
    table and is folded in here) and the shared cache, whose `posts-list`
    entry every successful change invalidates. */
module PostService {
  import opened Common
  import opened Strings
  import opened PostModel
  import Cache

  /** The cache key of the posts listing. */
  const PostsListKey: string := "posts-list"

  // ---------------------------------------------------------------------
  // Unique slugs
  // ---------------------------------------------------------------------

  /** `if ($excludeId)`: a null or zero id excludes nothing. */
  predicate Excluded(id: int, excludeId: Option<int>) {
    excludeId.Some? && excludeId.value != 0 && id == excludeId.value
  }

  /** `Post::withTrashed()->where('slug', $slug)[->where('id', '!=', $excludeId)]->exists()`:
      soft-deleted rows count too. */
  predicate SlugQueryExists(posts: map<int, Post>, slug: string, excludeId: Option<int>) {
    exists id :: id in posts && !Excluded(id, excludeId) && posts[id].slug == slug
  }

  /** The slugs the probing query reports as taken. */
  function UsedSlugs(posts: map<int, Post>, excludeId: Option<int>): (used: set<string>)
    ensures forall s :: s in used <==> SlugQueryExists(posts, s, excludeId)
  {
    set id | id in posts && !Excluded(id, excludeId) :: posts[id].slug
  }

  /** The k-th slug `ensureUniqueSlug` tries: the slug itself, then "slug-1", "slug-2", ... */
  function Candidate(base: string, k: nat): string {
    if k == 0 then base else base + "-" + NatToString(k)
  }

  /** The candidates are pairwise distinct, so the probing loop never retries a slug. */
  lemma CandidateInjective(base: string, i: nat, j: nat)
    ensures Candidate(base, i) == Candidate(base, j) ==> i == j
  {
    if i != 0 && j != 0 && Candidate(base, i) == Candidate(base, j) {
      assert Candidate(base, i)[|base| + 1..] == NatToString(i);
      assert Candidate(base, j)[|base| + 1..] == NatToString(j);
      NatToStringInjective(i, j);
    }
  }

  /** A suffixed candidate is never a slug the creating hook would replace. */
  lemma SuffixedCandidateNotEmpty(base: string, k: nat)
    requires k >= 1
    ensures !PhpEmpty(Candidate(base, k))
  {
    assert |Candidate(base, k)| >= 2;
  }

  /** Pairwise distinct strings drawn from a set are at most as many as the set has. */
  lemma {:induction false} DistinctMembersBound(xs: seq<string>, s: set<string>)
    requires forall a, b :: 0 <= a < b < |xs| ==> xs[a] != xs[b]
    requires forall a :: 0 <= a < |xs| ==> xs[a] in s
    ensures |xs| <= |s|
    decreases |xs|
  {
    if |xs| > 0 {
      var rest, smaller := xs[1..], s - {xs[0]};
      forall a | 0 <= a < |rest|
        ensures rest[a] in smaller
      {
        assert rest[a] == xs[a + 1];
      }
      DistinctMembersBound(rest, smaller);
      assert s == smaller + {xs[0]};
    }
  }

  /** `r` is what `ensureUniqueSlug` must return: a slug nobody else uses that
      is the first free candidate (the slug itself if it is free, otherwise
      "slug-k" for the smallest free k). */
  ghost predicate IsFirstFree(used: set<string>, base: string, r: string) {
    r !in used
    && exists k: nat :: r == Candidate(base, k) && forall j: nat :: j < k ==> Candidate(base, j) in used
  }

  /** The description above determines the slug. */
  lemma FirstFreeIsUnique(used: set<string>, base: string, r1: string, r2: string)
    requires IsFirstFree(used, base, r1) && IsFirstFree(used, base, r2)
    ensures r1 == r2
  {
    var k1: nat :| r1 == Candidate(base, k1) && forall j: nat :: j < k1 ==> Candidate(base, j) in used;
    var k2: nat :| r2 == Candidate(base, k2) && forall j: nat :: j < k2 ==> Candidate(base, j) in used;
    assert !(k1 < k2) && !(k2 < k1);
  }

  /** A free slug comes back unchanged. */
  lemma FreeSlugIsKept(used: set<string>, base: string, r: string)
    requires IsFirstFree(used, base, r)
    ensures base !in used ==> r == base
    ensures base in used ==> exists k: nat :: k >= 1 && r == Candidate(base, k)
  {
    var k: nat :| r == Candidate(base, k) && forall j: nat :: j < k ==> Candidate(base, j) in used;
    assert k > 0 ==> Candidate(base, 0) in used;
  }

  /** The probing loop of `ensureUniqueSlug`. The candidates are distinct and
      every rejected one is a used slug, so the loop runs at most once per used slug. */
  method EnsureUniqueSlug(posts: map<int, Post>, slug: string, excludeId: Option<int>) returns (r: string)
    ensures IsFirstFree(UsedSlugs(posts, excludeId), slug, r)
  {
    ghost var used := UsedSlugs(posts, excludeId);
    ghost var probed: seq<string> := [];
    var current := slug;
    var counter: nat := 1;
    while SlugQueryExists(posts, current, excludeId)
      invariant counter == |probed| + 1
      invariant current == Candidate(slug, |probed|)
      invariant forall j :: 0 <= j < |probed| ==> probed[j] == Candidate(slug, j) && probed[j] in used
      invariant forall a, b :: 0 <= a < b < |probed| ==> probed[a] != probed[b]
      decreases |used| - |probed|
    {
      forall a | 0 <= a < |probed|
        ensures probed[a] != current
      {
        CandidateInjective(slug, a, |probed|);
      }
      probed := probed + [current];
      DistinctMembersBound(probed, used);
      current := slug + "-" + NatToString(counter);
      counter := counter + 1;
    }
    r := current;
    assert forall j: nat :: j < |probed| ==> Candidate(slug, j) in used by {
      forall j: nat | j < |probed| ensures Candidate(slug, j) in used {
        assert probed[j] == Candidate(slug, j);
      }
    }
  }

  // ---------------------------------------------------------------------
  // Status transitions of one post
  // ---------------------------------------------------------------------

  /** The update both `publish` and `bulkPublish` write. */
  function MarkPublished(p: Post, now: int): Post {
    p.(status := Published, publishedAt := Some(now))
  }

  /** `publish`: the guard, then status published and `published_at` now. */
  function PublishedPost(p: Post, now: int): Result<Post> {
    if !CanBePublished(p) then Err(Unprocessable("Post cannot be published from status: " + StatusName(p.status)))
    else Ok(MarkPublished(p, now))
  }

  /** `unpublish`: the guard, then back to draft without a publication time. */
  function UnpublishedPost(p: Post, now: int): Result<Post> {
    if !IsPublished(p, now) then Err(Unprocessable("Post is not published"))
    else Ok(p.(status := Draft, publishedAt := None))
  }

  /** `archive`. */
  function ArchivedPost(p: Post): Result<Post> {
    if p.status == Archived then Err(Unprocessable("Post is already archived"))
    else Ok(p.(status := Archived))
  }

  /** `feature`. */
  function FeaturedPost(p: Post): Result<Post> {
    if p.isFeatured then Err(Unprocessable("Post is already featured"))
    else Ok(p.(isFeatured := true))
  }

  /** `unfeature`. */
  function UnfeaturedPost(p: Post): Result<Post> {
    if !p.isFeatured then Err(Unprocessable("Post is not featured"))
    else Ok(p.(isFeatured := false))
  }

  /** Publishing succeeds exactly from draft or pending; afterwards the post is
      published as of `now`, and nothing but status and publication time changed. */
  lemma PublishContract(p: Post, now: int)
    ensures PublishedPost(p, now).Ok? <==> p.status == Draft || p.status == Pending
    ensures PublishedPost(p, now).Err? ==> PublishedPost(p, now).error.status == 422
    ensures PublishedPost(p, now).Ok? ==>
      var q := PublishedPost(p, now).value;
      IsPublished(q, now) && q.publishedAt == Some(now) && q.(status := p.status, publishedAt := p.publishedAt) == p
  {
  }

  /** Unpublishing succeeds exactly for a post that `isPublished`; afterwards it
      is a draft without publication time, nothing else changed. */
  lemma UnpublishContract(p: Post, now: int)
    ensures UnpublishedPost(p, now).Ok? <==> IsPublished(p, now)
    ensures UnpublishedPost(p, now).Ok? ==>
      var q := UnpublishedPost(p, now).value;
      q.status == Draft && q.publishedAt == None && CanBePublished(q)
      && q.(status := p.status, publishedAt := p.publishedAt) == p
  {
  }

  /** Unpublishing right after publishing yields the same post as a draft. */
  lemma PublishThenUnpublish(p: Post, now: int)
    requires CanBePublished(p)
    ensures PublishedPost(p, now).Ok?
    ensures UnpublishedPost(PublishedPost(p, now).value, now) == Ok(p.(status := Draft, publishedAt := None))
  {
  }

  /** Archiving succeeds unless the post is archived already, so a second
      archive fails; an archived post cannot be published. */
  lemma ArchiveOnce(p: Post, now: int)
    ensures ArchivedPost(p).Ok? <==> p.status != Archived
    ensures ArchivedPost(p).Ok? ==> ArchivedPost(ArchivedPost(p).value).Err?
    ensures ArchivedPost(p).Ok? ==> PublishedPost(ArchivedPost(p).value, now).Err?
  {
  }

  /** Feature and unfeature each fail when their target state already holds,
      and featuring then unfeaturing gives back the original post. */
  lemma FeatureRoundTrip(p: Post)
    ensures FeaturedPost(p).Ok? <==> !p.isFeatured
    ensures UnfeaturedPost(p).Ok? <==> p.isFeatured
    ensures FeaturedPost(p).Ok? ==> FeaturedPost(p).value.isFeatured && FeaturedPost(FeaturedPost(p).value).Err?
    ensures !p.isFeatured ==> UnfeaturedPost(FeaturedPost(p).value) == Ok(p)
  {
  }

  // ---------------------------------------------------------------------
  // Bulk publishing
  // ---------------------------------------------------------------------

  /** `repository->find($id)`: soft-deleted rows are not found. */
  predicate Found(posts: map<int, Post>, id: int) {
    id in posts && !posts[id].deleted
  }

  /** One entry of `$results['failed']`. */
  datatype BulkFailure = BulkFailure(id: int, reason: string)

  /** The array `bulkPublish` returns. */
  datatype BulkResult = BulkResult(published: seq<int>, failed: seq<BulkFailure>)

  /** The posts table and the results after some of the ids. */
  datatype BulkState = BulkState(posts: map<int, Post>, result: BulkResult)

  /** Whether the step for `id` publishes in this table. */
  predicate StepPublishes(posts: map<int, Post>, id: int) {
    Found(posts, id) && CanBePublished(posts[id])
  }

  /** One iteration of the `foreach` in `bulkPublish`. */
  function BulkPublishStep(st: BulkState, id: int, now: int): BulkState {
    if !Found(st.posts, id) then
      st.(result := st.result.(failed := st.result.failed + [BulkFailure(id, "Post not found")]))
    else if !CanBePublished(st.posts[id]) then
      st.(result := st.result.(failed := st.result.failed
            + [BulkFailure(id, "Cannot publish from status: " + StatusName(st.posts[id].status))]))
    else
      BulkState(st.posts[id := MarkPublished(st.posts[id], now)], st.result.(published := st.result.published + [id]))
  }

  /** The whole loop over `ids`, in order. */
  function BulkPublishRun(posts: map<int, Post>, ids: seq<int>, now: int): BulkState
    decreases |ids|
  {
    if ids == [] then BulkState(posts, BulkResult([], []))
    else BulkPublishStep(BulkPublishRun(posts, ids[..|ids| - 1], now), ids[|ids| - 1], now)
  }

  /** For each position of `ids`, whether that iteration published. */
  ghost function BulkOutcomes(posts: map<int, Post>, ids: seq<int>, now: int): (o: seq<bool>)
    ensures |o| == |ids|
    decreases |ids|
  {
    if ids == [] then []
    else
      var before := BulkPublishRun(posts, ids[..|ids| - 1], now);
      BulkOutcomes(posts, ids[..|ids| - 1], now) + [StepPublishes(before.posts, ids[|ids| - 1])]
  }

  /** The ids at the positions where `o` is `want`, in order. */
  function Pick(ids: seq<int>, o: seq<bool>, want: bool): seq<int>
    requires |ids| == |o|
    decreases |ids|
  {
    if ids == [] then []
    else Pick(ids[..|ids| - 1], o[..|o| - 1], want) + (if o[|o| - 1] == want then [ids[|ids| - 1]] else [])
  }

  function FailedIds(fs: seq<BulkFailure>): seq<int>
    decreases |fs|
  {
    if fs == [] then [] else FailedIds(fs[..|fs| - 1]) + [fs[|fs| - 1].id]
  }

  /** The two picks split the ids: every position lands in exactly one of them. */
  lemma {:induction false} PickSplits(ids: seq<int>, o: seq<bool>)
    requires |ids| == |o|
    ensures |Pick(ids, o, true)| + |Pick(ids, o, false)| == |ids|
    decreases |ids|
  {
    if ids != [] {
      var n := |ids| - 1;
      PickSplits(ids[..n], o[..n]);
    }
  }

  /** ... and as multisets they make up the ids. */
  lemma {:induction false} PickSplitsMultiset(ids: seq<int>, o: seq<bool>)
    requires |ids| == |o|
    ensures multiset(Pick(ids, o, true)) + multiset(Pick(ids, o, false)) == multiset(ids)
    decreases |ids|
  {
    if ids != [] {
      var n := |ids| - 1;
      var front, last := ids[..n], ids[n];
      PickSplitsMultiset(front, o[..n]);
      assert ids == front + [last];
      assert multiset(ids) == multiset(front) + multiset{last};
    }
  }

  /** Every input id goes to exactly one of `published` and `failed`, in input
      order, as the per-position outcomes say. */
  lemma {:induction false} BulkPublishInOrder(posts: map<int, Post>, ids: seq<int>, now: int)
    ensures BulkPublishRun(posts, ids, now).result.published == Pick(ids, BulkOutcomes(posts, ids, now), true)
    ensures FailedIds(BulkPublishRun(posts, ids, now).result.failed) == Pick(ids, BulkOutcomes(posts, ids, now), false)
    decreases |ids|
  {
    if ids != [] {
      var n := |ids| - 1;
      BulkPublishInOrder(posts, ids[..n], now);
      var o := BulkOutcomes(posts, ids, now);
      assert o[..n] == BulkOutcomes(posts, ids[..n], now);
      var before := BulkPublishRun(posts, ids[..n], now);
      var after := BulkPublishRun(posts, ids, now);
      if StepPublishes(before.posts, ids[n]) {
        assert after.result.failed == before.result.failed;
      } else {
        var fs := after.result.failed;
        assert fs[..|fs| - 1] == before.result.failed;
      }
    }
  }

  /** |published| + |failed| = |ids|, and as multisets they make up the ids. */
  lemma BulkPublishCounts(posts: map<int, Post>, ids: seq<int>, now: int)
    ensures |BulkPublishRun(posts, ids, now).result.published| + |BulkPublishRun(posts, ids, now).result.failed| == |ids|
    ensures multiset(BulkPublishRun(posts, ids, now).result.published)
            + multiset(FailedIds(BulkPublishRun(posts, ids, now).result.failed)) == multiset(ids)
  {
    BulkPublishInOrder(posts, ids, now);
    PickSplits(ids, BulkOutcomes(posts, ids, now));
    PickSplitsMultiset(ids, BulkOutcomes(posts, ids, now));
    FailedIdsLength(BulkPublishRun(posts, ids, now).result.failed);
  }

  lemma {:induction false} FailedIdsLength(fs: seq<BulkFailure>)
    ensures |FailedIds(fs)| == |fs|
    decreases |fs|
  {
    if fs != [] { FailedIdsLength(fs[..|fs| - 1]); }
  }

  /** What the run does to the table: the same rows with the same ids, slugs
      and soft-delete markers; the published ids are now published as of
      `now` and were publishable before; every other row is untouched; and no
      id is published twice. */
  lemma {:induction false} BulkPublishEffect(posts: map<int, Post>, ids: seq<int>, now: int)
    ensures var st := BulkPublishRun(posts, ids, now);
      && st.posts.Keys == posts.Keys
      && (forall id :: id in posts ==>
            st.posts[id].id == posts[id].id && st.posts[id].slug == posts[id].slug
            && st.posts[id].deleted == posts[id].deleted)
      && (forall id :: id in posts && id !in st.result.published ==> st.posts[id] == posts[id])
      && (forall k :: 0 <= k < |st.result.published| ==>
            StepPublishes(posts, st.result.published[k])
            && st.posts[st.result.published[k]] == MarkPublished(posts[st.result.published[k]], now))
      && (forall a, b :: 0 <= a < b < |st.result.published| ==> st.result.published[a] != st.result.published[b])
    decreases |ids|
  {
    if ids != [] {
      var n := |ids| - 1;
      BulkPublishEffect(posts, ids[..n], now);
      var before := BulkPublishRun(posts, ids[..n], now);
      var id := ids[n];
      if StepPublishes(before.posts, id) {
        var pub := before.result.published;
        forall k | 0 <= k < |pub|
          ensures pub[k] != id
        {
          assert before.posts[pub[k]].status == Published;
        }
      }
    }
  }

  /** A failure says "Post not found" exactly when the id has no live row.
      Every other failure names the status that blocked publishing, which is
      still the post's status when the run ends: a post refused for its
      status is never published later in the run. */
  lemma {:induction false} BulkPublishReasons(posts: map<int, Post>, ids: seq<int>, now: int)
    ensures var st := BulkPublishRun(posts, ids, now);
      var fs := st.result.failed;
      forall k :: 0 <= k < |fs| ==>
        && (fs[k].reason == "Post not found" <==> !Found(posts, fs[k].id))
        && (Found(posts, fs[k].id) ==>
              && fs[k].id in st.posts && !CanBePublished(st.posts[fs[k].id])
              && fs[k].reason == "Cannot publish from status: " + StatusName(st.posts[fs[k].id].status))
    decreases |ids|
  {
    if ids != [] {
      var n := |ids| - 1;
      BulkPublishReasons(posts, ids[..n], now);
      BulkPublishEffect(posts, ids[..n], now);
      var before := BulkPublishRun(posts, ids[..n], now);
      var id := ids[n];
      assert Found(before.posts, id) <==> Found(posts, id);
      if StepPublishes(before.posts, id) {
        var fs := before.result.failed;
        forall k | 0 <= k < |fs| && Found(posts, fs[k].id)
          ensures fs[k].id != id
        {
        }
      } else if Found(before.posts, id) {
        var reason := "Cannot publish from status: " + StatusName(before.posts[id].status);
        assert reason[0] == 'C';
      }
    }
  }

  /** The example batch [draft, already published, missing]: the call
      succeeds, publishes the draft and reports the two others. */
  lemma BulkPublishMixedBatch(posts: map<int, Post>, draft: int, live: int, missing: int, now: int)
    requires Found(posts, draft) && posts[draft].status == Draft
    requires Found(posts, live) && posts[live].status == Published
    requires missing !in posts
    requires draft != live
    ensures var r := BulkPublishRun(posts, [draft, live, missing], now).result;
      r.published == [draft]
      && r.failed == [BulkFailure(live, "Cannot publish from status: published"), BulkFailure(missing, "Post not found")]
  {
    var ids := [draft, live, missing];
    assert ids[..2][..1] == [draft];
    assert ids[..2] == [draft, live];
    assert [draft][..0] == [];
    var s0 := BulkState(posts, BulkResult([], []));
    assert BulkPublishRun(posts, [], now) == s0;
    assert "Cannot publish from status: " + StatusName(Published) == "Cannot publish from status: published";
    var s1 := BulkPublishRun(posts, [draft], now);
    assert s1 == BulkPublishStep(s0, draft, now);
    assert s1.posts[live] == posts[live];
    var s2 := BulkPublishRun(posts, [draft, live], now);
    assert s2 == BulkPublishStep(s1, live, now);
    assert s2.result.failed == [BulkFailure(live, "Cannot publish from status: published")];
    assert missing !in s2.posts;
  }

  /** A repeated id fails on its second occurrence, because the first one
      published it. */
  lemma BulkPublishRepeatedId(posts: map<int, Post>, id: int, now: int)
    requires Found(posts, id) && CanBePublished(posts[id])
    ensures var r := BulkPublishRun(posts, [id, id], now).result;
      r.published == [id] && r.failed == [BulkFailure(id, "Cannot publish from status: published")]
  {
    assert [id, id][..1] == [id];
    assert [id][..0] == [];
    assert BulkPublishRun(posts, [], now) == BulkState(posts, BulkResult([], []));
    assert "Cannot publish from status: " + StatusName(Published) == "Cannot publish from status: published";
    var s1 := BulkPublishRun(posts, [id], now);
    assert s1 == BulkPublishStep(BulkState(posts, BulkResult([], [])), id, now);
    assert s1.posts[id].status == Published;
  }

  // ---------------------------------------------------------------------
  // Creating, updating and duplicating
  // ---------------------------------------------------------------------

  /** The `$data` array `create` receives (validated payload of the create action). */
  datatype PostData = PostData(
    title: string,
    slug: Option<string>,
    categoryId: Option<int>,
    excerpt: Option<string>,
    content: string,
    featuredImage: Option<string>,
    status: Option<PostStatus>,
    tags: Option<seq<int>>)

  /** The `$data` array `update` receives: each field absent (None) or given.
      For nullable columns a given value may itself be null; `tags` given as
      null syncs to no tags. */
  datatype PostPatch = PostPatch(
    title: Option<string>,
    slug: Option<string>,
    excerpt: Option<Option<string>>,
    content: Option<string>,
    categoryId: Option<Option<int>>,
    featuredImage: Option<Option<string>>,
    tags: Option<Option<seq<int>>>)

  /** The slug `create` probes: `$data['slug'] ?? Str::slug($data['title'])`. */
  function CreateSlugBase(data: PostData, slugify: string -> string): string {
    data.slug.GetOr(slugify(data.title))
  }

  /** The row `create` inserts, with the slug after the creating hook. */
  function NewPost(id: int, author: User, data: PostData, slug: string): Post {
    Post(id, author.id, data.categoryId, data.title, slug, data.excerpt, data.content, data.featuredImage,
         data.status.GetOr(Draft), false, 0, 0, None,
         if data.tags.Some? && data.tags.value != [] then set t | t in data.tags.value else {},
         false)
  }

  /** The database's unique index on `posts.slug` refusing an insert. */
  function DuplicateSlug(slug: string): HttpError {
    HttpError(500, "Unique constraint violated on posts.slug: " + slug)
  }

  /** The slug `update` probes, if any: a new explicit slug, or else the slug
      of a new title when no slug is given and it differs from the current one. */
  function UpdateSlugBase(p: Post, patch: PostPatch, slugify: string -> string): Option<string> {
    if patch.slug.Some? && patch.slug.value != p.slug then Some(patch.slug.value)
    else if patch.title.Some? && patch.slug.None? && slugify(patch.title.value) != p.slug then
      Some(slugify(patch.title.value))
    else None
  }

  /** `update` probes only for a slug that differs from the current one, and
      derives one from the title only when no slug is given. */
  lemma UpdateProbesOnlyChangedSlugs(p: Post, patch: PostPatch, slugify: string -> string)
    ensures UpdateSlugBase(p, patch, slugify).Some? ==> UpdateSlugBase(p, patch, slugify).value != p.slug
    ensures UpdateSlugBase(p, patch, slugify).Some? && patch.slug.None? ==>
      patch.title.Some? && UpdateSlugBase(p, patch, slugify).value == slugify(patch.title.value)
    ensures patch.slug.Some? && patch.slug.value != p.slug ==> UpdateSlugBase(p, patch, slugify) == Some(patch.slug.value)
    ensures patch.slug.None? && patch.title.None? ==> UpdateSlugBase(p, patch, slugify).None?
  {
  }

  /** `repository->update($post, $data)` and the tag sync, with the final slug. */
  function ApplyPatch(p: Post, patch: PostPatch, slug: string): Post {
    p.(title := patch.title.GetOr(p.title),
       slug := slug,
       excerpt := patch.excerpt.GetOr(p.excerpt),
       content := patch.content.GetOr(p.content),
       categoryId := patch.categoryId.GetOr(p.categoryId),
       featuredImage := patch.featuredImage.GetOr(p.featuredImage),
       tagIds := if patch.tags.Some? then (set t | t in patch.tags.value.GetOr([])) else p.tagIds)
  }

  /** The row `duplicate` inserts for a copy of `p`. */
  function CopyOf(p: Post, id: int, newAuthor: Option<User>, slug: string): Post {
    Post(id, if newAuthor.Some? then newAuthor.value.id else p.userId, p.categoryId, p.title + " (Copy)", slug,
         p.excerpt, p.content, p.featuredImage, Draft, false, 0, 0, None, p.tagIds, false)
  }

  /** Only a probed slug of "" or "0", which the creating hook replaces, can
      collide with an existing slug on create. */
  lemma CreateCollidesOnlyThroughHook(used: set<string>, base: string, probed: string, title: string, slugify: string -> string)
    requires IsFirstFree(used, base, probed)
    requires CreatingSlug(probed, title, slugify) in used
    ensures PhpEmpty(base) && probed == base && CreatingSlug(probed, title, slugify) == slugify(title)
  {
    var k: nat :| probed == Candidate(base, k) && forall j: nat :: j < k ==> Candidate(base, j) in used;
    if k >= 1 { SuffixedCandidateNotEmpty(base, k); }
  }

  /** Every slug in the table is used by one row only. */
  ghost predicate SlugsUnique(posts: map<int, Post>) {
    forall i, j :: i in posts && j in posts && i != j ==> posts[i].slug != posts[j].slug
  }

  /** A soft-deleted post keeps its slug reserved: the probe still sees it. */
  lemma SoftDeleteKeepsSlugReserved(posts: map<int, Post>, id: int, excludeId: Option<int>)
    requires id in posts
    ensures UsedSlugs(posts[id := posts[id].(deleted := true)], excludeId) == UsedSlugs(posts, excludeId)
    ensures !Found(posts[id := posts[id].(deleted := true)], id)
  {
    var after := posts[id := posts[id].(deleted := true)];
    forall s ensures s in UsedSlugs(after, excludeId) <==> s in UsedSlugs(posts, excludeId) {
      if SlugQueryExists(posts, s, excludeId) {
        var j :| j in posts && !Excluded(j, excludeId) && posts[j].slug == s;
        assert after[j].slug == s;
      }
    }
  }

  // ---------------------------------------------------------------------
  // The service
  // ---------------------------------------------------------------------

  class PostService {
    /** The posts table, soft-deleted rows included, keyed by id. */
    var posts: map<int, Post>
    /** The next auto-increment id. */
    var nextId: int
    /** The application cache. */
    const cache: Cache.Cache

    /** Ids are positive, below the auto-increment counter and stored in their
        row; slugs are unique (the unique index on `posts.slug`). */
    ghost predicate Valid()
      reads this
    {
      1 <= nextId
      && (forall id :: id in posts ==> 1 <= id < nextId && posts[id].id == id)
      && SlugsUnique(posts)
    }

    constructor (cache: Cache.Cache)
      ensures Valid() && posts == map[] && nextId == 1 && this.cache == cache
    {
      this.cache := cache;
      posts := map[];
      nextId := 1;
    }

    /** `clearCache`. */
    method ClearCache()
      modifies cache
      ensures cache.keys == old(cache.keys) - {PostsListKey}
    {
      cache.Forget(PostsListKey);
    }

    /** `create`: probe the slug, insert the row (the creating hook may still
        replace a slug "" or "0", and the unique index refuses a taken one),
        then clear the listing cache. The status defaults to draft. */
    method Create(author: User, data: PostData, slugify: string -> string) returns (r: Result<Post>, ghost probed: string)
      requires Valid()
      modifies this, cache
      ensures Valid()
      ensures IsFirstFree(UsedSlugs(old(posts), None), CreateSlugBase(data, slugify), probed)
      ensures var created := NewPost(old(nextId), author, data, CreatingSlug(probed, data.title, slugify));
        if created.slug in UsedSlugs(old(posts), None) then
          && r == Err(DuplicateSlug(created.slug))
          && posts == old(posts) && nextId == old(nextId) && cache.keys == old(cache.keys)
        else
          && r == Ok(created)
          && posts == old(posts)[created.id := created] && nextId == old(nextId) + 1
          && cache.keys == old(cache.keys) - {PostsListKey}
    {
      var base := if data.slug.Some? then data.slug.value else slugify(data.title);
      var slug := EnsureUniqueSlug(posts, base, None);
      probed := slug;
      var created := NewPost(nextId, author, data, CreatingSlug(slug, data.title, slugify));
      if SlugQueryExists(posts, created.slug, None) {
        r := Err(DuplicateSlug(created.slug));
        return;
      }
      posts := posts[nextId := created];
      nextId := nextId + 1;
      ClearCache();
      r := Ok(created);
    }

    /** `update`: re-probe the slug only when it changes, apply the fields and
        the tag sync, clear the listing cache. */
    method Update(id: int, patch: PostPatch, slugify: string -> string) returns (r: Post)
      requires Valid() && Found(posts, id)
      modifies this, cache
      ensures Valid()
      ensures match UpdateSlugBase(old(posts)[id], patch, slugify)
        case None => r.slug == old(posts)[id].slug
        case Some(base) => IsFirstFree(UsedSlugs(old(posts), Some(id)), base, r.slug)
      ensures r == ApplyPatch(old(posts)[id], patch, r.slug)
      ensures posts == old(posts)[id := r] && nextId == old(nextId)
      ensures cache.keys == old(cache.keys) - {PostsListKey}
    {
      var p := posts[id];
      var slug := p.slug;
      if patch.slug.Some? && patch.slug.value != p.slug {
        slug := EnsureUniqueSlug(posts, patch.slug.value, Some(p.id));
      } else if patch.title.Some? && patch.slug.None? {
        var newSlug := slugify(patch.title.value);
        if newSlug != p.slug {
          slug := EnsureUniqueSlug(posts, newSlug, Some(p.id));
        }
      }
      r := ApplyPatch(p, patch, slug);
      posts := posts[id := r];
      ClearCache();
    }

    /** `publish`. */
    method Publish(id: int, now: int) returns (r: Result<Post>)
      requires Valid() && Found(posts, id)
      modifies this, cache
      ensures Valid()
      ensures r == PublishedPost(old(posts)[id], now)
      ensures posts == (if r.Ok? then old(posts)[id := r.value] else old(posts)) && nextId == old(nextId)
      ensures cache.keys == if r.Ok? then old(cache.keys) - {PostsListKey} else old(cache.keys)
    {
      r := PublishedPost(posts[id], now);
      if r.Ok? {
        posts := posts[id := r.value];
        ClearCache();
      }
    }

    /** `unpublish`. */
    method Unpublish(id: int, now: int) returns (r: Result<Post>)
      requires Valid() && Found(posts, id)
      modifies this, cache
      ensures Valid()
      ensures r == UnpublishedPost(old(posts)[id], now)
      ensures posts == (if r.Ok? then old(posts)[id := r.value] else old(posts)) && nextId == old(nextId)
      ensures cache.keys == if r.Ok? then old(cache.keys) - {PostsListKey} else old(cache.keys)
    {
      r := UnpublishedPost(posts[id], now);
      if r.Ok? {
        posts := posts[id := r.value];
        ClearCache();
      }
    }

    /** `archive`. */
    method Archive(id: int) returns (r: Result<Post>)
      requires Valid() && Found(posts, id)
      modifies this, cache
      ensures Valid()
      ensures r == ArchivedPost(old(posts)[id])
      ensures posts == (if r.Ok? then old(posts)[id := r.value] else old(posts)) && nextId == old(nextId)
      ensures cache.keys == if r.Ok? then old(cache.keys) - {PostsListKey} else old(cache.keys)
    {
      r := ArchivedPost(posts[id]);
      if r.Ok? {
        posts := posts[id := r.value];
        ClearCache();
      }
    }

    /** `feature`. */
    method Feature(id: int) returns (r: Result<Post>)
      requires Valid() && Found(posts, id)
      modifies this, cache
      ensures Valid()
      ensures r == FeaturedPost(old(posts)[id])
      ensures posts == (if r.Ok? then old(posts)[id := r.value] else old(posts)) && nextId == old(nextId)
      ensures cache.keys == if r.Ok? then old(cache.keys) - {PostsListKey} else old(cache.keys)
    {
      r := FeaturedPost(posts[id]);
      if r.Ok? {
        posts := posts[id := r.value];
        ClearCache();
      }
    }

    /** `unfeature`. */
    method Unfeature(id: int) returns (r: Result<Post>)
      requires Valid() && Found(posts, id)
      modifies this, cache
      ensures Valid()
      ensures r == UnfeaturedPost(old(posts)[id])
      ensures posts == (if r.Ok? then old(posts)[id := r.value] else old(posts)) && nextId == old(nextId)
      ensures cache.keys == if r.Ok? then old(cache.keys) - {PostsListKey} else old(cache.keys)
    {
      r := UnfeaturedPost(posts[id]);
      if r.Ok? {
        posts := posts[id := r.value];
        ClearCache();
      }
    }

    /** `duplicate`: a new draft, not featured, titled "<title> (Copy)", with
        the first free slug after "<slug>-copy", owned by the new author if
        one is given; the original row is untouched. */
    method Duplicate(id: int, newAuthor: Option<User>, slugify: string -> string) returns (r: Post)
      requires Valid() && Found(posts, id)
      modifies this, cache
      ensures Valid()
      ensures IsFirstFree(UsedSlugs(old(posts), None), old(posts)[id].slug + "-copy", r.slug)
      ensures r == CopyOf(old(posts)[id], old(nextId), newAuthor, r.slug)
      ensures posts == old(posts)[r.id := r] && nextId == old(nextId) + 1
      ensures cache.keys == old(cache.keys) - {PostsListKey}
    {
      var p := posts[id];
      var base := p.slug + "-copy";
      var newSlug := EnsureUniqueSlug(posts, base, None);
      assert !PhpEmpty(newSlug) by {
        var k: nat :| newSlug == Candidate(base, k);
        if k >= 1 { SuffixedCandidateNotEmpty(base, k); }
      }
      r := CopyOf(p, nextId, newAuthor, CreatingSlug(newSlug, p.title + " (Copy)", slugify));
      assert !SlugQueryExists(posts, r.slug, None);
      posts := posts[nextId := r];
      nextId := nextId + 1;
      ClearCache();
    }

    /** `bulkPublish`: one pass over the ids; the listing cache is cleared
        only if something was published. */
    method BulkPublish(ids: seq<int>, now: int) returns (r: BulkResult)
      requires Valid()
      modifies this, cache
      ensures Valid()
      ensures BulkState(posts, r) == BulkPublishRun(old(posts), ids, now)
      ensures nextId == old(nextId)
      ensures cache.keys == if |r.published| > 0 then old(cache.keys) - {PostsListKey} else old(cache.keys)
    {
      r := BulkResult([], []);
      var i := 0;
      while i < |ids|
        invariant 0 <= i <= |ids|
        invariant BulkState(posts, r) == BulkPublishRun(old(posts), ids[..i], now)
        invariant nextId == old(nextId)
        modifies this
      {
        var id := ids[i];
        if !Found(posts, id) {
          r := r.(failed := r.failed + [BulkFailure(id, "Post not found")]);
        } else if !CanBePublished(posts[id]) {
          r := r.(failed := r.failed + [BulkFailure(id, "Cannot publish from status: " + StatusName(posts[id].status))]);
        } else {
          posts := posts[id := MarkPublished(posts[id], now)];
          r := r.(published := r.published + [id]);
        }
        assert ids[..i + 1][..i] == ids[..i];
        i := i + 1;
      }
      assert ids[..|ids|] == ids;
      BulkPublishEffect(old(posts), ids, now);
      if |r.published| > 0 {
        ClearCache();
      }
    }

    /** `delete`: a soft delete; the row and its slug stay in the table. */
    method Delete(id: int) returns (ok: bool)
      requires Valid() && Found(posts, id)
      modifies this, cache
      ensures Valid()
      ensures ok
      ensures posts == old(posts)[id := old(posts)[id].(deleted := true)] && nextId == old(nextId)
      ensures cache.keys == old(cache.keys) - {PostsListKey}
    {
      posts := posts[id := posts[id].(deleted := true)];
      ClearCache();
      ok := true;
    }
  }
}
