/** app/Repositories/CommentRepository.php together with the generic
    create/update/delete of app/Repositories/BaseRepository.php: the comments
    table, its moderation updates, its bulk updates and its counting queries.
    Every query sees only rows that are not soft-deleted. */
module CommentRepository {
  import opened Common
  import opened CommentModel

  // ---------------------------------------------------------------------
  // Queries on a table
  // ---------------------------------------------------------------------

  /** Whether the row `id` is visible to queries (not soft-deleted). */
  predicate Live(rows: map<int, Comment>, id: int) {
    id in rows && !rows[id].deleted
  }

  /** The visible rows, optionally restricted to one post and one status:
      `query()[->where('post_id', p)][->where('status', s)]`. */
  function Matching(rows: map<int, Comment>, postId: Option<int>, status: Option<CommentStatus>): set<int> {
    set id | id in rows && !rows[id].deleted
             && (postId.None? || rows[id].postId == postId.value)
             && (status.None? || rows[id].status == status.value)
  }

  /** The result of `getStats()`. */
  datatype Stats = Stats(total: nat, pending: nat, approved: nat, spam: nat, rejected: nat)

  /** The visible rows split by status: the four sets are disjoint and make up
      all visible rows, so the four counts add up to the total. */
  lemma StatusPartition(rows: map<int, Comment>, postId: Option<int>)
    ensures |Matching(rows, postId, None)| ==
      |Matching(rows, postId, Some(Pending))| + |Matching(rows, postId, Some(Approved))|
      + |Matching(rows, postId, Some(Spam))| + |Matching(rows, postId, Some(Rejected))|
  {
    var p, a, s, r := Matching(rows, postId, Some(Pending)), Matching(rows, postId, Some(Approved)),
                      Matching(rows, postId, Some(Spam)), Matching(rows, postId, Some(Rejected));
    forall id | id in Matching(rows, postId, None)
      ensures id in p + a + s + r
    {
      match rows[id].status
      case Pending => assert id in p;
      case Approved => assert id in a;
      case Spam => assert id in s;
      case Rejected => assert id in r;
    }
    assert Matching(rows, postId, None) == p + a + s + r;
    assert p !! a && (p + a) !! s && (p + a + s) !! r;
    DisjointUnionSize(p, a);
    DisjointUnionSize(p + a, s);
    DisjointUnionSize(p + a + s, r);
  }

  lemma DisjointUnionSize(a: set<int>, b: set<int>)
    requires a !! b
    ensures |a + b| == |a| + |b|
  {
    assert (a + b) - b == a;
  }

  /** Counting one status on one post gives zero exactly when no visible
      row of that post has that status. */
  lemma MatchingEmpty(rows: map<int, Comment>, postId: int, s: CommentStatus)
    ensures Matching(rows, Some(postId), Some(s)) == {} <==>
      forall id :: Live(rows, id) && rows[id].postId == postId ==> rows[id].status != s
  {
    var m := Matching(rows, Some(postId), Some(s));
    if forall id :: Live(rows, id) && rows[id].postId == postId ==> rows[id].status != s {
      forall id
        ensures id !in m
      {
      }
      assert m == {};
    }
    forall id | Live(rows, id) && rows[id].postId == postId
      ensures id in m <==> rows[id].status == s
    {
    }
  }

  /** `bulkApprove($ids)`'s target rows: visible, listed and pending. */
  function BulkApproveTargets(rows: map<int, Comment>, ids: seq<int>): set<int> {
    set id | id in rows && id in ids && !rows[id].deleted && rows[id].status == Pending
  }

  /** The table after `bulkApprove($ids)`. */
  function BulkApproved(rows: map<int, Comment>, ids: seq<int>): map<int, Comment> {
    map id | id in rows :: if id in BulkApproveTargets(rows, ids) then rows[id].(status := Approved) else rows[id]
  }

  /** `bulkDelete($ids)`'s target rows: visible and listed. */
  function BulkDeleteTargets(rows: map<int, Comment>, ids: seq<int>): set<int> {
    set id | id in rows && id in ids && !rows[id].deleted
  }

  /** The table after `bulkDelete($ids)`: a soft delete of each target. */
  function BulkDeleted(rows: map<int, Comment>, ids: seq<int>): map<int, Comment> {
    map id | id in rows :: if id in BulkDeleteTargets(rows, ids) then rows[id].(deleted := true) else rows[id]
  }

  /** `approve`, `reject` and `markAsSpam` write one status to one row. */
  function WithStatus(rows: map<int, Comment>, id: int, s: CommentStatus): map<int, Comment>
    requires id in rows
  {
    rows[id := rows[id].(status := s)]
  }

  /** Bulk approval touches exactly the listed pending rows: each becomes
      approved, with nothing else about it changed, and every other row stays
      as it was. */
  lemma BulkApproveChangesOnlyTargets(rows: map<int, Comment>, ids: seq<int>)
    ensures BulkApproved(rows, ids).Keys == rows.Keys
    ensures forall id :: id in rows ==>
      (BulkApproved(rows, ids)[id] != rows[id] <==> Live(rows, id) && id in ids && rows[id].status == Pending)
    ensures forall id :: id in rows && BulkApproved(rows, ids)[id] != rows[id] ==>
      BulkApproved(rows, ids)[id] == rows[id].(status := Approved)
  {
  }

  /** Bulk approval is idempotent: a second run over the same ids finds no
      target and changes nothing. */
  lemma BulkApproveIdempotent(rows: map<int, Comment>, ids: seq<int>)
    ensures BulkApproveTargets(BulkApproved(rows, ids), ids) == {}
    ensures BulkApproved(BulkApproved(rows, ids), ids) == BulkApproved(rows, ids)
  {
    var after, t := BulkApproved(rows, ids), BulkApproveTargets(rows, ids);
    forall id | id in after
      ensures id !in BulkApproveTargets(after, ids)
    {
      if id in t {
        assert after[id].status == Approved;
      } else {
        assert after[id] == rows[id];
      }
    }
  }

  /** Bulk approval moves exactly the reported number of rows from pending
      to approved and leaves the other counts alone. */
  lemma BulkApproveCounts(rows: map<int, Comment>, ids: seq<int>, postId: Option<int>)
    ensures var after, t := BulkApproved(rows, ids), BulkApproveTargets(rows, ids);
      var moved := |t * Matching(rows, postId, None)|;
      && |Matching(after, postId, Some(Pending))| == |Matching(rows, postId, Some(Pending))| - moved
      && |Matching(after, postId, Some(Approved))| == |Matching(rows, postId, Some(Approved))| + moved
      && Matching(after, postId, Some(Spam)) == Matching(rows, postId, Some(Spam))
      && Matching(after, postId, Some(Rejected)) == Matching(rows, postId, Some(Rejected))
      && Matching(after, postId, None) == Matching(rows, postId, None)
  {
    var t := BulkApproveTargets(rows, ids);
    var tp := t * Matching(rows, postId, None);
    var pBefore, aBefore := Matching(rows, postId, Some(Pending)), Matching(rows, postId, Some(Approved));
    BulkApprovedSets(rows, ids, postId);
    assert tp <= pBefore;
    assert pBefore == (pBefore - tp) + tp;
    DisjointUnionSize(pBefore - tp, tp);
    DisjointUnionSize(aBefore, tp);
  }

  /** The sets behind `BulkApproveCounts`. */
  lemma BulkApprovedSets(rows: map<int, Comment>, ids: seq<int>, postId: Option<int>)
    ensures var after, tp := BulkApproved(rows, ids), BulkApproveTargets(rows, ids) * Matching(rows, postId, None);
      && Matching(after, postId, Some(Pending)) == Matching(rows, postId, Some(Pending)) - tp
      && Matching(after, postId, Some(Approved)) == Matching(rows, postId, Some(Approved)) + tp
      && Matching(rows, postId, Some(Approved)) !! tp
      && Matching(after, postId, Some(Spam)) == Matching(rows, postId, Some(Spam))
      && Matching(after, postId, Some(Rejected)) == Matching(rows, postId, Some(Rejected))
      && Matching(after, postId, None) == Matching(rows, postId, None)
  {
    var after, t := BulkApproved(rows, ids), BulkApproveTargets(rows, ids);
    forall id | id in rows
      ensures after[id].deleted == rows[id].deleted && after[id].postId == rows[id].postId
      ensures after[id].status == if id in t then Approved else rows[id].status
    {
    }
    forall st: CommentStatus
      ensures Matching(after, postId, Some(st)) ==
        set id | id in rows && !rows[id].deleted && (postId.None? || rows[id].postId == postId.value)
                 && (if id in t then Approved else rows[id].status) == st
    {
    }
  }

  /** Bulk deletion hides exactly the reported number of rows and leaves the
      other rows and every row's data as they were. */
  lemma BulkDeleteCounts(rows: map<int, Comment>, ids: seq<int>)
    ensures var after, t := BulkDeleted(rows, ids), BulkDeleteTargets(rows, ids);
      && after.Keys == rows.Keys
      && Matching(after, None, None) == Matching(rows, None, None) - t
      && |Matching(after, None, None)| == |Matching(rows, None, None)| - |t|
      && (forall id :: id in rows ==> after[id].(deleted := rows[id].deleted) == rows[id])
      && (forall id :: id in rows ==> (after[id].deleted <==> rows[id].deleted || id in ids))
  {
    var after, t := BulkDeleted(rows, ids), BulkDeleteTargets(rows, ids);
    var all := Matching(rows, None, None);
    assert Matching(after, None, None) == all - t;
    assert t <= all;
    assert all == (all - t) + t;
    DisjointUnionSize(all - t, t);
  }

  /** Approving one pending row moves it from pending to approved in its
      post's counts (and in the totals). */
  lemma ApproveMovesOne(rows: map<int, Comment>, id: int, postId: Option<int>)
    requires Live(rows, id) && rows[id].status == Pending
    requires postId.None? || postId.value == rows[id].postId
    ensures var after := WithStatus(rows, id, Approved);
      && |Matching(after, postId, Some(Pending))| == |Matching(rows, postId, Some(Pending))| - 1
      && |Matching(after, postId, Some(Approved))| == |Matching(rows, postId, Some(Approved))| + 1
      && Matching(after, postId, None) == Matching(rows, postId, None)
  {
    var after := WithStatus(rows, id, Approved);
    var p, a := Matching(rows, postId, Some(Pending)), Matching(rows, postId, Some(Approved));
    assert Matching(after, postId, Some(Pending)) == p - {id};
    assert Matching(after, postId, Some(Approved)) == a + {id};
    assert id in p && id !in a;
  }

  // ---------------------------------------------------------------------
  // The repository
  // ---------------------------------------------------------------------

  class CommentRepository {
    /** The comments table, soft-deleted rows included, keyed by id. */
    var rows: map<int, Comment>
    /** The next auto-increment id. */
    var nextId: int

    ghost predicate Valid()
      reads this
    {
      1 <= nextId && forall id :: id in rows ==> 1 <= id < nextId && rows[id].id == id
    }

    constructor ()
      ensures Valid() && rows == map[] && nextId == 1
    {
      rows := map[];
      nextId := 1;
    }

    /** `create($attributes)`: insert a new visible row under the next id. */
    method Create(c: Comment) returns (r: Comment)
      requires Valid()
      modifies this
      ensures Valid()
      ensures r == c.(id := old(nextId), deleted := false)
      ensures rows == old(rows)[r.id := r] && nextId == old(nextId) + 1
    {
      r := c.(id := nextId, deleted := false);
      rows := rows[nextId := r];
      nextId := nextId + 1;
    }

    /** `update($comment, $data)` with the one field the update action
        accepts, `content`. */
    method Update(id: int, content: Option<string>) returns (ok: bool)
      requires Valid() && id in rows
      modifies this
      ensures Valid() && ok
      ensures rows == old(rows)[id := old(rows)[id].(content := content.GetOr(old(rows)[id].content))]
      ensures nextId == old(nextId)
    {
      rows := rows[id := rows[id].(content := content.GetOr(rows[id].content))];
      ok := true;
    }

    /** `delete($comment)`: a soft delete. */
    method Delete(id: int) returns (ok: bool)
      requires Valid() && id in rows
      modifies this
      ensures Valid() && ok
      ensures rows == old(rows)[id := old(rows)[id].(deleted := true)] && nextId == old(nextId)
    {
      rows := rows[id := rows[id].(deleted := true)];
      ok := true;
    }

    /** `approve`. */
    method Approve(id: int) returns (ok: bool)
      requires Valid() && id in rows
      modifies this
      ensures Valid() && ok
      ensures rows == WithStatus(old(rows), id, Approved) && nextId == old(nextId)
    {
      rows := WithStatus(rows, id, Approved);
      ok := true;
    }

    /** `reject`. */
    method Reject(id: int) returns (ok: bool)
      requires Valid() && id in rows
      modifies this
      ensures Valid() && ok
      ensures rows == WithStatus(old(rows), id, Rejected) && nextId == old(nextId)
    {
      rows := WithStatus(rows, id, Rejected);
      ok := true;
    }

    /** `markAsSpam`. */
    method MarkAsSpam(id: int) returns (ok: bool)
      requires Valid() && id in rows
      modifies this
      ensures Valid() && ok
      ensures rows == WithStatus(old(rows), id, Spam) && nextId == old(nextId)
    {
      rows := WithStatus(rows, id, Spam);
      ok := true;
    }

    /** `bulkApprove($ids)`: one UPDATE over the listed pending rows; the
        affected-row count is returned. */
    method BulkApprove(ids: seq<int>) returns (n: nat)
      requires Valid()
      modifies this
      ensures Valid()
      ensures rows == BulkApproved(old(rows), ids) && nextId == old(nextId)
      ensures n == |BulkApproveTargets(old(rows), ids)|
    {
      n := |BulkApproveTargets(rows, ids)|;
      rows := BulkApproved(rows, ids);
    }

    /** `bulkDelete($ids)`: one soft-deleting UPDATE over the listed visible
        rows; the affected-row count is returned. */
    method BulkDelete(ids: seq<int>) returns (n: nat)
      requires Valid()
      modifies this
      ensures Valid()
      ensures rows == BulkDeleted(old(rows), ids) && nextId == old(nextId)
      ensures n == |BulkDeleteTargets(old(rows), ids)|
    {
      n := |BulkDeleteTargets(rows, ids)|;
      rows := BulkDeleted(rows, ids);
    }

    /** `countPendingByPost($post)`: the number of visible pending comments
        of the post, zero exactly when it has none. */
    function CountPendingByPost(postId: int): (n: nat)
      reads this
      ensures n == |set id | id in rows && !rows[id].deleted && rows[id].postId == postId && rows[id].status == Pending|
      ensures n == 0 <==> forall id :: Live(rows, id) && rows[id].postId == postId ==> rows[id].status != Pending
    {
      MatchingEmpty(rows, postId, Pending);
      assert Matching(rows, Some(postId), Some(Pending)) ==
        set id | id in rows && !rows[id].deleted && rows[id].postId == postId && rows[id].status == Pending;
      |Matching(rows, Some(postId), Some(Pending))|
    }

    /** `countApprovedByPost($post)`: the number of visible approved
        comments of the post, zero exactly when it has none. */
    function CountApprovedByPost(postId: int): (n: nat)
      reads this
      ensures n == |set id | id in rows && !rows[id].deleted && rows[id].postId == postId && rows[id].status == Approved|
      ensures n == 0 <==> forall id :: Live(rows, id) && rows[id].postId == postId ==> rows[id].status != Approved
    {
      MatchingEmpty(rows, postId, Approved);
      assert Matching(rows, Some(postId), Some(Approved)) ==
        set id | id in rows && !rows[id].deleted && rows[id].postId == postId && rows[id].status == Approved;
      |Matching(rows, Some(postId), Some(Approved))|
    }

    /** `getStats()`: the visible rows, and the visible rows of each status,
        counted; the four counts add up to the total. */
    function GetStats(): (st: Stats)
      reads this
      ensures st.total == |Matching(rows, None, None)|
      ensures st.pending == |Matching(rows, None, Some(Pending))| && st.approved == |Matching(rows, None, Some(Approved))|
      ensures st.spam == |Matching(rows, None, Some(Spam))| && st.rejected == |Matching(rows, None, Some(Rejected))|
      ensures st.pending + st.approved + st.spam + st.rejected == st.total
    {
      StatusPartition(rows, None);
      Stats(|Matching(rows, None, None)|,
            |Matching(rows, None, Some(Pending))|,
            |Matching(rows, None, Some(Approved))|,
            |Matching(rows, None, Some(Spam))|,
            |Matching(rows, None, Some(Rejected))|)
    }
  }
}
