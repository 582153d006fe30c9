# Blog API core: posts, comments, policies and custom actions

This project models the core of a Laravel blog API. The API exposes posts and
comments through a query-gate package: declarative per-version filter tables,
raw filter closures, and custom actions such as `publish` or `approve`.

The model covers:

- **Posts.** The `Post` entity: its statuses, its helper predicates, the
  `published` scope and the `creating` slug hook. The post service creates,
  updates, publishes, unpublishes, archives, features, unfeatures,
  duplicates, bulk-publishes and deletes posts. Slugs stay unique among all
  rows, soft-deleted rows included. Every change clears the `posts-list`
  cache entry.
- **Comments.** The `Comment` entity and its display-name rule. The comment
  repository's moderation updates, bulk updates, counters and statistics.
  The comment service, which clears the `comments-list` entry and the
  post's `post-{id}-comments` entry after each change except `bulkApprove`,
  which clears only `comments-list`.
- **Policies.** Both policies, with the administrator, editor and moderator
  roles derived from the e-mail address.
- **Query-gate configuration.** The three API version blocks of the post
  endpoint, the raw filters of both endpoints, and the create handlers.
- **Custom actions.** All ten of them: their descriptors, authorization,
  validation rules, handlers and responses.

Tables are maps from id to row, and each row carries a `deleted` flag for
soft deletes. The posts table is a field of the `PostService.PostService`
class (the post repository is folded into it); the comments table is a field
of the `CommentRepository.CommentRepository` class. The cache is a
`Cache.Cache` object holding its set of live keys.

Each state-changing service method is specified by a pure function of the
old row (`PublishedPost`, `ApprovedComment`, `BulkPublishRun`, `BulkApproved`,
...), and the lemmas about those functions carry the properties. Each action's
`Handle` method is specified by an `Outcome` function of the row as it was.

Some inputs come from outside the model and are passed in as parameters:

- the clock (`now`);
- `Str::slug` (`slugify`);
- the request's IP address;
- the users table that the `author` relations read (`users`).

## Model

| member | source | states |
|---|---|---|
| PostModel.CanBePublishedExactly | app/Models/Post.php:113-128 | a post can be published exactly from draft or pending, and such a post is never published at any time |
| PostModel.PublishedScope | app/Models/Post.php:85-90 | the scope holds exactly the visible rows with status published and a publication time not after now |
| PostModel.CreatingHookKeepsNonEmptySlug | app/Models/Post.php:130-137 | the creating hook keeps every slug PHP considers non-empty and replaces an empty slug by the slug of the title |
| PostModel.CreatingHookReplacesZeroSlug | app/Models/Post.php:132-136 | because the hook tests with `empty()`, an explicit slug "0" is replaced as well |
| PostService.UsedSlugs | app/Services/PostService.php:223-227 | a slug counts as taken exactly when some row has it, trashed rows included, other than the excluded id (a null or zero id excludes nothing) |
| PostService.CandidateInjective | app/Services/PostService.php:233 | distinct counters give distinct candidates "<slug>-<n>" |
| PostService.FirstFreeIsUnique | app/Services/PostService.php:217-238 | the first free candidate is determined by the set of taken slugs and the base |
| PostService.FreeSlugIsKept | app/Services/PostService.php:229-231 | a base slug that is not taken is returned unchanged, and a taken one comes back with a suffix "-k", k ≥ 1 |
| PostService.EnsureUniqueSlug | app/Services/PostService.php:217-238 | the loop returns the first candidate in the order slug, slug-1, slug-2, … that no row (trashed included, excluded id aside) uses; it terminates because the taken set is finite |
| PostService.PublishContract | app/Services/PostService.php:70-84 | publishing succeeds exactly from draft or pending, sets status published and the publication time now, and otherwise fails with 422 |
| PostService.UnpublishContract | app/Services/PostService.php:86-100 | unpublishing succeeds exactly for a post that is published now, and returns it to draft without a publication time |
| PostService.PublishThenUnpublish | app/Services/PostService.php:70-100 | publishing and then unpublishing a publishable post gives back the post in draft without a publication time |
| PostService.ArchiveOnce | app/Services/PostService.php:102-115 | archiving succeeds exactly when the post is not archived; a second archive fails, and an archived post cannot be published |
| PostService.FeatureRoundTrip | app/Services/PostService.php:117-145 | feature succeeds exactly for a post that is not featured, unfeature exactly for one that is; unfeaturing a just-featured post restores it |
| PostService.BulkPublishInOrder | app/Services/PostService.php:180-199 | the published ids are the requested ids that could be published, in request order; the failures are the others, in order |
| PostService.BulkPublishCounts | app/Services/PostService.php:172-207 | every requested id lands in exactly one of `published` and `failed`: the counts add up and the multisets partition the request |
| PostService.BulkPublishEffect | app/Services/PostService.php:180-199 | the run keeps ids, slugs and the deleted flags; rows it did not publish are unchanged; published rows were publishable and now carry status published and time now; no id is published twice |
| PostService.BulkPublishReasons | app/Services/PostService.php:183-190 | a failure says "Post not found" exactly when the id is missing or trashed; every other failure reads "Cannot publish from status: <status>" with the post's status, which is not draft or pending and is still its status when the run ends |
| PostService.BulkPublishMixedBatch | app/Services/PostService.php:180-199 | a draft, a published post and a missing id give one published entry and two failures with their reasons |
| PostService.BulkPublishRepeatedId | app/Services/PostService.php:188-190 | an id listed twice is published once; the second visit fails with "Cannot publish from status: published" |
| PostService.UpdateProbesOnlyChangedSlugs | app/Services/PostService.php:50-58 | update looks for a new slug only when the given slug differs from the stored one, or, without a slug, when the title's slug differs |
| PostService.CreateCollidesOnlyThroughHook | app/Services/PostService.php:19-44 | after probing, the insert can still hit the unique index only when the probed slug is "" or "0" and the creating hook replaces it by a taken slug |
| PostService.SoftDeleteKeepsSlugReserved | app/Services/PostService.php:209-215 | deleting a post hides it from `find`, but its slug stays taken |
| PostService.PostService.Create | app/Services/PostService.php:19-44 | probes the slug, inserts the new post under the next id with status defaulting to draft, and clears the listing; a unique-index violation leaves the table and cache unchanged |
| PostService.PostService.Update | app/Services/PostService.php:46-68 | re-probes the slug only when it changes (excluding the post itself), applies the fields and the tag sync, clears the listing |
| PostService.PostService.Publish | app/Services/PostService.php:70-84 | the new row is `PublishedPost` of the old one; the cache is cleared only on success |
| PostService.PostService.Unpublish | app/Services/PostService.php:86-100 | the new row is `UnpublishedPost` of the old one; the cache is cleared only on success |
| PostService.PostService.Archive | app/Services/PostService.php:102-115 | the new row is `ArchivedPost` of the old one; the cache is cleared only on success |
| PostService.PostService.Feature | app/Services/PostService.php:117-130 | the new row is `FeaturedPost` of the old one; the cache is cleared only on success |
| PostService.PostService.Unfeature | app/Services/PostService.php:132-145 | the new row is `UnfeaturedPost` of the old one; the cache is cleared only on success |
| PostService.PostService.Duplicate | app/Services/PostService.php:147-170 | inserts a draft, unfeatured, zero-count copy titled "<title> (Copy)" under the first free slug after "<slug>-copy", owned by the new author if given; the original is untouched |
| PostService.PostService.BulkPublish | app/Services/PostService.php:172-207 | the loop's final table and result are `BulkPublishRun` of the old table; the listing is cleared only if something was published |
| PostService.PostService.Delete | app/Services/PostService.php:209-215 | soft-deletes the row and clears the listing |
| PostService.PostService.ClearCache | app/Services/PostService.php:240-243 | forgets exactly the `posts-list` key |
| Roles.RoleBySuffix | app/Policies/PostPolicy.php:71-74 | an editor (and, in the comment policy, a moderator) is anyone whose address is some local part followed by the role's domain |
| Roles.RolesDisjoint | app/Policies/PostPolicy.php:66-74 | the administrator is neither an editor nor a moderator, and no address is both an editor's and a moderator's |
| PostPolicy.GuestSeesPublishedOnly | app/Policies/PostPolicy.php:18-25 | a guest may view exactly the published posts |
| PostPolicy.AdminMayDoAnything | app/Policies/PostPolicy.php:13-64 | the administrator holds every post ability |
| PostPolicy.PublishWidensUpdate | app/Policies/PostPolicy.php:32-64 | whoever may update may publish; an editor who is not the author may publish but not update |
| PostPolicy.AuthorshipLimits | app/Policies/PostPolicy.php:32-55 | an author without a role may update, delete and publish their post but neither feature nor force-delete it |
| PostGate.Versions | app/Models/Post.php:171-290 | three blocks dated 2024-01-01, 2024-06-01 and 2025-01-01, in order; each is well formed (every operator list belongs to a declared filter, and every raw filter names a field with at least one operator); each later block keeps every filter operator, projected field and sort of every earlier one; only the last has raw filters (title, tag_slugs, comment_status) |
| PostGate.Version1Facts | app/Models/Post.php:172-186 | the first block is well formed and the second extends it |
| PostGate.Version2Facts | app/Models/Post.php:188-218 | the second block is well formed and the third extends it |
| PostGate.Version3Facts | app/Models/Post.php:220-290 | the third block is well formed |
| PostGate.ExtendsTransitive | app/Models/Post.php:171-290 | extension between blocks is transitive |
| PostGate.TitleFilterMeaning | app/Models/Post.php:260-263 | the title raw filter is a substring match under `like`, equality under `eq` and its negation otherwise |
| PostGate.RelatedFilterCommaList | app/Models/Post.php:265-282 | under `in`, a comma-joined string filters the same as the list of its values, and a single value filters like `eq` |
| PostGate.SingleValueIn | app/Models/Post.php:268 | `in` with one value without commas tests membership of that value |
| PostGate.CommentStatuses | app/Models/Post.php:274-282 | the set holds exactly the status names of the post's visible comments: every such comment's status is in it, and every name in it comes from one of them |
| PostGate.CommentStatusFilterMeaning | app/Models/Post.php:274-282 | `comment_status = s` admits a post exactly when one of its visible comments has status s |
| PostGate.StatusNameRoundTrip | app/Models/Post.php:28-31 | the stored status string determines the status |
| PostGate.CreateStatusRule | app/Models/Post.php:306 | a status admitted on create is absent, draft or pending, so the new post can be published and is neither published nor archived |
| PostGate.CreateStatusRefused | app/Models/Post.php:306 | the create rule refuses "published" and "archived" and admits absent, "draft" and "pending" |
| PostGate.CreateHandle | app/Models/Post.php:320-325 | the create handler passes the requester and payload to the service: the slug is the first free candidate of the given slug or the title's slug, the new row is the requester's `NewPost` under the next id with status defaulting to draft, `nextId` goes up by one and `posts-list` is cleared; a failure (status 500) leaves the table, `nextId` and the cache unchanged |
| PostGate.UpdateHandle | app/Models/Post.php:348-350 | the update handler passes the payload to the service: the slug is kept unless it changes, in which case it is the first free candidate excluding the post itself; the row becomes the patched post, `nextId` is unchanged and `posts-list` is cleared |
| PostGate.CustomActions | app/Models/Post.php:357-363 | the post endpoint registers seven actions with distinct names, all POST, with status 201 for duplicate and 200 otherwise |
| PostGate.PostActionsNeedAUser | app/Actions/QueryGate/Posts/PublishPost.php:25-28 | every post action's authorization fails with no signed-in user; duplicate and bulk-publish are open to every signed-in user |
| PublishPost.Authorize | app/Actions/QueryGate/Posts/PublishPost.php:25-28 | fails without a user and allows exactly the author and the administrator |
| PublishPost.EditorRefusedDespitePublishAbility | app/Actions/QueryGate/Posts/PublishPost.php:25-28 | an editor who does not own the post holds the `publish` ability but the action, which checks `update`, refuses them |
| PublishPost.Outcome | app/Actions/QueryGate/Posts/PublishPost.php:40-54 | succeeds exactly when the post can be published; answers with the post's id, title and slug, status "published" and publication time now; otherwise the 422 refusal |
| PublishPost.Handle | app/Actions/QueryGate/Posts/PublishPost.php:40-54 | answers `Outcome` of the row as it was and leaves the service's publish effect |
| UnpublishPost.Authorize | app/Actions/QueryGate/Posts/UnpublishPost.php:25-28 | fails without a user and allows exactly the author and the administrator |
| UnpublishPost.Outcome | app/Actions/QueryGate/Posts/UnpublishPost.php:35-49 | succeeds exactly when the post is published now; answers status "draft" and a null publication time |
| UnpublishPost.PublishedPostCanBeUnpublished | app/Actions/QueryGate/Posts/UnpublishPost.php:35-49 | a post just published is accepted by the unpublish action at the same time |
| UnpublishPost.Handle | app/Actions/QueryGate/Posts/UnpublishPost.php:35-49 | answers `Outcome` of the row as it was and leaves the service's unpublish effect |
| ArchivePost.Authorize | app/Actions/QueryGate/Posts/ArchivePost.php:25-28 | fails without a user and allows exactly the author and the administrator |
| ArchivePost.Outcome | app/Actions/QueryGate/Posts/ArchivePost.php:44-59 | succeeds exactly when the post is not archived; answers status "archived", the time of archiving and the reason given (or null) |
| ArchivePost.ArchiveTwiceRefused | app/Actions/QueryGate/Posts/ArchivePost.php:44-59 | archiving an archived post is refused, whatever the reason |
| ArchivePost.Handle | app/Actions/QueryGate/Posts/ArchivePost.php:44-59 | answers `Outcome` of the row as it was and leaves the service's archive effect |
| FeaturePost.Authorize | app/Actions/QueryGate/Posts/FeaturePost.php:25-28 | fails without a user and allows exactly the administrator and editors |
| FeaturePost.AuthorRefused | app/Actions/QueryGate/Posts/FeaturePost.php:25-28 | an author without a role may not feature their own post |
| FeaturePost.Outcome | app/Actions/QueryGate/Posts/FeaturePost.php:35-48 | succeeds exactly for a post that is not featured and answers `is_featured` true |
| FeaturePost.Handle | app/Actions/QueryGate/Posts/FeaturePost.php:35-48 | answers `Outcome` of the row as it was and leaves the service's feature effect |
| UnfeaturePost.Authorize | app/Actions/QueryGate/Posts/UnfeaturePost.php:25-28 | fails without a user and allows exactly the administrator and editors |
| UnfeaturePost.Outcome | app/Actions/QueryGate/Posts/UnfeaturePost.php:40-53 | succeeds exactly for a featured post and answers `is_featured` false |
| UnfeaturePost.FeatureUnfeatureToggle | app/Actions/QueryGate/Posts/UnfeaturePost.php:25-53 | feature and unfeature are open to the same users, exactly one of them succeeds on any post, and unfeaturing a just-featured post restores its row |
| UnfeaturePost.Handle | app/Actions/QueryGate/Posts/UnfeaturePost.php:40-53 | answers `Outcome` of the row as it was and leaves the service's unfeature effect |
| DuplicatePost.Authorize | app/Actions/QueryGate/Posts/DuplicatePost.php:25-28 | fails without a user and allows every signed-in user |
| DuplicatePost.NewAuthor | app/Actions/QueryGate/Posts/DuplicatePost.php:48-49 | the copy goes to the requester unless `assign_to_me` is false; a missing or null flag counts as true |
| DuplicatePost.Renamed | app/Actions/QueryGate/Posts/DuplicatePost.php:52-55 | the rename changes the title only, and only for a title PHP considers non-empty (not absent, "" or "0") |
| DuplicatePost.StoredCopy | app/Actions/QueryGate/Posts/DuplicatePost.php:46-72 | the stored copy is a draft, not featured, without views, likes or publication time, with the original's content and tags; its owner and title follow the payload |
| DuplicatePost.Handle | app/Actions/QueryGate/Posts/DuplicatePost.php:46-72 | stores the copy under the next id with the first free "-copy" slug, applies the rename, and answers the original id, the copy and its author |
| BulkPublishPosts.Authorize | app/Actions/QueryGate/Posts/BulkPublishPosts.php:31-34 | fails without a user and allows every signed-in user |
| BulkPublishPosts.SummaryAddsUp | app/Actions/QueryGate/Posts/BulkPublishPosts.php:51-65 | requested equals published plus failed; the published ids are the publishable requested ids in order |
| BulkPublishPosts.TrashedIdPassesValidation | app/Actions/QueryGate/Posts/BulkPublishPosts.php:36-42 | a soft-deleted post's id passes the `exists` rule and is then reported as not found, with no change to the table |
| BulkPublishPosts.Handle | app/Actions/QueryGate/Posts/BulkPublishPosts.php:51-65 | leaves the table as `BulkPublishRun` does and answers its result with the summary |
| CommentModel.StatusNameInjective | app/Models/Comment.php:21-24 | the four status strings are distinct |
| CommentModel.AuthorDisplayName | app/Models/Comment.php:85-88 | the linked user's name if the user exists, else the stored author name, else "Anonymous" |
| CommentRepository.StatusPartition | app/Repositories/CommentRepository.php:124-133 | the visible comments per status partition all visible comments, so the four counts add up to the total |
| CommentRepository.MatchingEmpty | app/Repositories/CommentRepository.php:57-71 | counting one status on one post gives zero exactly when no visible comment of the post has it |
| CommentRepository.BulkApproveChangesOnlyTargets | app/Repositories/CommentRepository.php:109-115 | bulk approval keeps the keys and changes exactly the listed, visible, pending rows, only in their status |
| CommentRepository.BulkApproveCounts | app/Repositories/CommentRepository.php:109-115 | bulk approval moves exactly its targets from pending to approved and keeps the total |
| CommentRepository.BulkApproveIdempotent | app/Repositories/CommentRepository.php:109-115 | approving the same ids twice changes nothing the second time |
| CommentRepository.BulkDeleteCounts | app/Repositories/CommentRepository.php:117-122 | bulk delete hides exactly its targets and leaves the other rows as they were |
| CommentRepository.ApproveMovesOne | app/Repositories/CommentRepository.php:94-97 | approving one pending comment moves one from the pending to the approved count |
| CommentRepository.CommentRepository.CountPendingByPost | app/Repositories/CommentRepository.php:57-63 | the number of visible comments of the post with status pending, zero exactly when there is none |
| CommentRepository.CommentRepository.CountApprovedByPost | app/Repositories/CommentRepository.php:65-71 | the number of visible comments of the post with status approved, zero exactly when there is none |
| CommentRepository.CommentRepository.GetStats | app/Repositories/CommentRepository.php:124-133 | the total counts the visible comments, each status count counts the visible comments with that status, and the four add up to the total |
| CommentRepository.CommentRepository.Approve | app/Repositories/CommentRepository.php:94-97 | sets the status to approved and nothing else |
| CommentRepository.CommentRepository.Reject | app/Repositories/CommentRepository.php:99-102 | sets the status to rejected and nothing else |
| CommentRepository.CommentRepository.MarkAsSpam | app/Repositories/CommentRepository.php:104-107 | sets the status to spam and nothing else |
| CommentRepository.CommentRepository.BulkApprove | app/Repositories/CommentRepository.php:109-115 | the table becomes `BulkApproved` and the count returned is the number of targets |
| CommentRepository.CommentRepository.BulkDelete | app/Repositories/CommentRepository.php:117-122 | the table becomes `BulkDeleted` and the count returned is the number of targets |
| CommentService.PostCommentsKeyInjective | app/Services/CommentService.php:97-101 | each post has its own comments key |
| CommentService.PostCommentsKeyDistinct | app/Services/CommentService.php:97-101 | no post's comments key is the comments or posts listing key |
| CommentService.NewCommentContract | app/Services/CommentService.php:18-34 | a signed-in author's comment is approved and linked; a guest's is pending; the author's name and e-mail fill what the payload omits; a nameless guest shows as "Anonymous" |
| CommentService.ModerationContract | app/Services/CommentService.php:44-78 | each moderation step succeeds from every status but its own target, writes only the status, fails with 422 when repeated |
| CommentService.ModerationReversible | app/Services/CommentService.php:44-78 | a rejected or spam comment can still be approved |
| CommentService.CommentService.Create | app/Services/CommentService.php:18-34 | inserts `NewComment` under the next id and clears the listing and the post's entry |
| CommentService.CommentService.Update | app/Services/CommentService.php:36-42 | replaces the content if given and clears the listing and the post's entry |
| CommentService.CommentService.Approve | app/Services/CommentService.php:44-54 | the new row is `ApprovedComment` of the old one; the cache is cleared only on success |
| CommentService.CommentService.Reject | app/Services/CommentService.php:56-66 | the new row is `RejectedComment` of the old one; the cache is cleared only on success |
| CommentService.CommentService.MarkAsSpam | app/Services/CommentService.php:68-78 | the new row is `SpamComment` of the old one; the cache is cleared only on success |
| CommentService.CommentService.BulkApprove | app/Services/CommentService.php:80-86 | bulk-approves through the repository and forgets only the listing key, not the per-post keys |
| CommentService.CommentService.Delete | app/Services/CommentService.php:88-95 | soft-deletes the row and clears the listing and the post's entry |
| CommentService.CommentService.ClearCache | app/Services/CommentService.php:97-101 | forgets exactly the listing key and the post's comments key |
| CommentPolicy.GuestSeesApprovedOnly | app/Policies/CommentPolicy.php:18-29 | a guest may view exactly the approved comments |
| CommentPolicy.GuestCommentEditedByAdminOnly | app/Policies/CommentPolicy.php:36-39 | a guest's comment can be edited by the administrator only |
| CommentPolicy.DeleteWidensUpdate | app/Policies/CommentPolicy.php:36-46 | whoever may edit may delete; the post's author may delete but not edit other people's comments |
| CommentPolicy.ModerationIgnoresAuthorship | app/Policies/CommentPolicy.php:48-63 | moderation depends only on the user and the post's author, so writing a comment gives no right to moderate it |
| CommentGate.FiltersFacts | app/Models/Comment.php:102-131 | the comment tables are well formed, the only raw filter is content and it admits `like` only |
| CommentGate.ContentFilterMeaning | app/Models/Comment.php:128-131 | the content filter is a substring match that ignores the operator; an empty value matches everything and a longer value matches less |
| CommentGate.HandlerRowContract | app/Models/Comment.php:150-158 | the create handler links and approves a signed-in requester's comment, leaves a guest's pending, and stores the request address |
| CommentGate.HandlerAgreesWithService | app/Models/Comment.php:150-158 | the handler stores the same row as the service whenever the payload names the author |
| CommentGate.CreateHandle | app/Models/Comment.php:150-158 | saves the handler row under the next id |
| CommentGate.CustomActions | app/Models/Comment.php:171-173 | the comment endpoint registers three POST actions with distinct names and status 200 |
| CommentGate.ModerationActionsAgree | app/Actions/QueryGate/Comments/ApproveComment.php:25-28 | the three moderation actions refuse a guest and are open to the same users |
| CommentGate.ModerationOutcomes | app/Actions/QueryGate/Comments/ApproveComment.php:40-53 | at most one of approve, reject and mark-as-spam is refused as a repetition on any comment |
| ApproveComment.Authorize | app/Actions/QueryGate/Comments/ApproveComment.php:25-28 | true exactly for a signed-in post author, administrator or moderator; a guest is refused, not an error |
| ApproveComment.Outcome | app/Actions/QueryGate/Comments/ApproveComment.php:40-53 | succeeds exactly for a comment not yet approved, answering status "approved", the unchanged content and the author's display name |
| ApproveComment.Handle | app/Actions/QueryGate/Comments/ApproveComment.php:40-53 | answers `Outcome` of the row as it was and leaves the service's approve effect |
| RejectComment.Authorize | app/Actions/QueryGate/Comments/RejectComment.php:25-28 | true exactly for a signed-in post author, administrator or moderator |
| RejectComment.AuthorCannotModerate | app/Actions/QueryGate/Comments/RejectComment.php:25-28 | the commenter may not reject their own comment without a moderating role or authorship of the post |
| RejectComment.Outcome | app/Actions/QueryGate/Comments/RejectComment.php:44-56 | succeeds exactly for a comment not yet rejected, answering status "rejected" and the reason given (or null) |
| RejectComment.Handle | app/Actions/QueryGate/Comments/RejectComment.php:44-56 | answers `Outcome` of the row as it was and leaves the service's reject effect |
| MarkAsSpam.Authorize | app/Actions/QueryGate/Comments/MarkAsSpam.php:25-28 | true exactly for a signed-in post author, administrator or moderator |
| MarkAsSpam.Outcome | app/Actions/QueryGate/Comments/MarkAsSpam.php:40-52 | succeeds exactly for a comment not yet spam, answering status "spam" and the stored IP address |
| MarkAsSpam.Handle | app/Actions/QueryGate/Comments/MarkAsSpam.php:40-52 | answers `Outcome` of the row as it was and leaves the service's mark-as-spam effect |

## Left out

- Validation rules are modelled as predicates over the payload (`ArchivePost.Valid`, `RejectComment.Valid`, `DuplicatePost.Valid`, `BulkPublishPosts.Valid`, `PostGate.CreateStatusAllowed`). The package that runs them before a handler is not modelled. Type rules (`string`, `integer`, `boolean`, `array`) are carried by the Dafny types.
- The other create and update rules of both endpoints (`max`, `url`, `email`, `unique`, `required_without`, `exists:categories` and `exists:tags`) stay in the validation layer and are not modelled. The `unique:posts,slug` rule still matters inside the model, because the service probes slugs anyway.
- The query-gate package (routing, pagination, caching of listings, the generic filter and sort engine, OpenAPI output) is not part of this model. Only the configuration tables, the raw filter closures and the handlers are modelled.
- String comparisons are exact. `LIKE` is a case-sensitive substring test, and equality comparisons (the slug probe `where('slug', …)`, the unique index, the `eq` and `in` filters) compare exactly. A case-insensitive database collation, under which "Hello" collides with "hello", is left out, and so are `%`/`_` wildcards inside a `LIKE` value.
- A raw filter given an array value with an operator other than `in` is outside the model (`RelatedFilter` requires a scalar there), because the filter rules declare the value a string.
- Timestamps are integers and `now` is a parameter. ISO-8601 formatting of `published_at` and `archived_at` is left out.
- `Str::slug` is the parameter `slugify`, and the request's IP address is a parameter.
- The database transactions in `create`, `update`, `duplicate` and `bulkPublish` are not modelled: the model runs each operation alone, without concurrency or partial failure.
- PostService.PostService.Create: when the insert fails on the unique index, the model keeps `nextId`, whereas a real auto-increment counter is consumed by the failed insert. Ids are only compared for equality, so the gap this leaves is not modelled.
- `PostService.DuplicateSlug`: the database exception on a unique-index violation is modelled as a 500 error whose message is illustrative.
- The post repository is folded into `PostService.PostService`, and its query helpers (popular, related, search, by author, by tag and so on) are not used by the core.
- The comment repository's paginated readers (`getByPost`, `getPending`, `getSpam`, `getReplies`, `getRecentByPost`) are left out: they only list rows and are not used by the core.
- `CommentService.CommentService.Update` models only `content`, the one field the update action accepts. Other fillable columns are left out.
- A comment whose post has been soft-deleted is outside the model: `$comment->post` is assumed to exist. The comment policy and the comment actions take the post author's id as a parameter.
- `DuplicatePost.Handle` requires the original's author and the requester to exist in `users`, as the foreign key on `posts.user_id` guarantees.
- A post action called without a signed-in user dereferences null. The model returns a 500 error (`Actions.NoUserError`) instead of a PHP fatal error.
- Tags and categories are stored only as ids (`tagIds`, `categoryId`). The tags table, categories and users are not modelled beyond what the filters and display names read.
