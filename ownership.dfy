/**
 * The thread-ownership registry: the table `thread_ownership` that maps each
 * thread to the user who owns it, and the route handlers that read and change it.
 *
 * The SQL round-trips become operations on a `map`; each handler becomes a pure
 * transition function (the specification) and a method of `OwnershipStore`
 * that performs the same steps on the stored table.
 */
module Ownership {
  import opened Wrappers

  type ThreadId = string
  type UserId = string

  /** A reading of the server clock (`datetime.utcnow()`); a larger value is later. */
  type Timestamp = nat

  /** One row of the table, keyed by its thread id (the primary key). */
  datatype Row = Row(userId: UserId, title: string, createdAt: Timestamp)

  type Table = map<ThreadId, Row>

  /** What the handlers answer with (`ThreadInfo` and `CreateThreadResponse` have the same fields). */
  datatype ThreadInfo = ThreadInfo(threadId: ThreadId, userId: UserId, title: string, createdAt: Timestamp)

  /** A handler's answer: a value, or the HTTPException it raises. */
  datatype Reply<T> = Ok(value: T) | Forbidden | NotFound

  /** The table after a handler ran, and what the handler answered. */
  datatype Outcome<T> = Outcome(table: Table, reply: Reply<T>)

  function InfoOf(threadId: ThreadId, row: Row): ThreadInfo
  {
    ThreadInfo(threadId, row.userId, row.title, row.createdAt)
  }

  /** Python's slice `s[:n]`: the first `n` characters, or all of `s` when it is shorter. */
  function Prefix(s: string, n: nat): (p: string)
    ensures |p| == if |s| < n then |s| else n
    ensures p <= s
  {
    if |s| <= n then s else s[..n]
  }

  /** `f"Thread {thread_id[:8]}..."`: at most 18 characters, framed by `"Thread "` and `"..."` around the id's first 8. */
  function DefaultTitle(threadId: ThreadId): (title: string)
    ensures |title| == 10 + |Prefix(threadId, 8)| <= 18
    ensures title[..7] == "Thread " && title[|title| - 3..] == "..."
    ensures title[7..|title| - 3] == Prefix(threadId, 8) <= threadId
  {
    "Thread " + Prefix(threadId, 8) + "..."
  }

  /** The title a new row gets: the requested one, unless it is missing or empty (`request.title or ...`). */
  function TitleFor(requested: Option<string>, threadId: ThreadId): (title: string)
    ensures title != ""
    ensures requested.Some? && requested.value != "" ==> title == requested.value
    ensures requested == None || requested == Some("") ==> title == DefaultTitle(threadId)
  {
    match requested
    case Some(t) => if t != "" then t else DefaultTitle(threadId)
    case None => DefaultTitle(threadId)
  }

  /** Every thread other than `threadId` is present in both tables or in neither, with the same row. */
  ghost predicate SameOutside(t: Table, t': Table, threadId: ThreadId)
  {
    forall k :: k != threadId ==> (k in t <==> k in t') && (k in t ==> t'[k] == t[k])
  }

  /** No thread present in both tables has changed owner. */
  ghost predicate OwnersKept(t: Table, t': Table)
  {
    forall k :: k in t && k in t' ==> t'[k].userId == t[k].userId
  }

  /** POST /users/{user_id}/threads: register `threadId` as owned by `userId`. */
  function CreateThread(t: Table, userId: UserId, threadId: ThreadId, title: Option<string>, now: Timestamp)
    : (o: Outcome<ThreadInfo>)
    ensures !o.reply.NotFound?
    ensures o.reply.Forbidden? <==> threadId in t && t[threadId].userId != userId
    // a registered thread is never written again: a repeated create is idempotent
    ensures threadId in t ==> o.table == t
    ensures threadId in t && o.reply.Ok? ==> o.reply.value == InfoOf(threadId, t[threadId])
    // an unregistered thread gains exactly one row, stamped with the clock reading
    ensures threadId !in t ==>
      && o.table.Keys == t.Keys + {threadId}
      && o.table[threadId] == Row(userId, TitleFor(title, threadId), now)
      && o.reply == Ok(ThreadInfo(threadId, userId, TitleFor(title, threadId), now))
    ensures SameOutside(t, o.table, threadId)
    ensures OwnersKept(t, o.table)
    ensures o.reply.Ok? ==> threadId in o.table && o.table[threadId].userId == userId
  {
    if threadId in t then
      var existing := t[threadId];
      if existing.userId != userId then Outcome(t, Forbidden)
      else Outcome(t, Ok(InfoOf(threadId, existing)))
    else
      var row := Row(userId, TitleFor(title, threadId), now);
      Outcome(t[threadId := row], Ok(InfoOf(threadId, row)))
  }

  /** DELETE /users/{user_id}/threads/{thread_id}: remove the ownership record. */
  function DeleteThread(t: Table, userId: UserId, threadId: ThreadId): (o: Outcome<ThreadId>)
    ensures o.reply.NotFound? <==> threadId !in t
    ensures o.reply.Forbidden? <==> threadId in t && t[threadId].userId != userId
    ensures !o.reply.Ok? ==> o.table == t
    ensures o.reply.Ok? ==>
      && t[threadId].userId == userId
      && o.reply.value == threadId
      && o.table.Keys == t.Keys - {threadId}
    ensures SameOutside(t, o.table, threadId)
  {
    if threadId !in t then Outcome(t, NotFound)
    else if t[threadId].userId != userId then Outcome(t, Forbidden)
    else Outcome(t - {threadId}, Ok(threadId))
  }

  /** PATCH /users/{user_id}/threads/{thread_id}: rename a thread. */
  function UpdateTitle(t: Table, userId: UserId, threadId: ThreadId, title: string): (o: Outcome<ThreadInfo>)
    ensures o.reply.NotFound? <==> threadId !in t
    ensures o.reply.Forbidden? <==> threadId in t && t[threadId].userId != userId
    ensures !o.reply.Ok? ==> o.table == t
    ensures o.reply.Ok? ==>
      && t[threadId].userId == userId
      && o.table.Keys == t.Keys
      && o.table[threadId] == t[threadId].(title := title)
      && o.reply.value == InfoOf(threadId, o.table[threadId])
    ensures SameOutside(t, o.table, threadId)
    ensures OwnersKept(t, o.table)
  {
    if threadId !in t then Outcome(t, NotFound)
    else if t[threadId].userId != userId then Outcome(t, Forbidden)
    else
      var row := t[threadId].(title := title);
      Outcome(t[threadId := row], Ok(InfoOf(threadId, row)))
  }

  /** GET /threads/{thread_id}/owner: the owner, or `None` for an unregistered thread. */
  function GetThreadOwner(t: Table, threadId: ThreadId): (owner: Option<UserId>)
    ensures owner == None <==> threadId !in t
    ensures owner.Some? ==> owner.value == t[threadId].userId
  {
    if threadId in t then Some(t[threadId].userId) else None
  }

  /** `verify_thread_ownership`: unregistered threads are open to everyone, registered ones to their owner. */
  function VerifyThreadOwnership(t: Table, userId: UserId, threadId: ThreadId): (allowed: bool)
    ensures allowed <==> GetThreadOwner(t, threadId) in {None, Some(userId)}
  {
    threadId !in t || t[threadId].userId == userId
  }

  /** The threads `userId` owns. */
  ghost function OwnedThreads(t: Table, userId: UserId): set<ThreadId>
  {
    set k | k in t && t[k].userId == userId
  }

  /**
   * `s` is an answer of GET /users/{user_id}/threads: each owned row exactly once,
   * as stored, newest first (rows with equal `created_at` may come in any order).
   */
  ghost predicate IsUserListing(t: Table, userId: UserId, s: seq<ThreadInfo>)
  {
    && (forall i :: 0 <= i < |s| ==>
          s[i].threadId in t && t[s[i].threadId].userId == userId && s[i] == InfoOf(s[i].threadId, t[s[i].threadId]))
    && (forall k :: k in t && t[k].userId == userId ==> exists i :: 0 <= i < |s| && s[i].threadId == k)
    && (forall i, j :: 0 <= i < j < |s| ==> s[i].threadId != s[j].threadId)
    && (forall i, j :: 0 <= i < j < |s| ==> s[i].createdAt >= s[j].createdAt)
  }

  /** Some pending thread is at least as recent as every other pending one. */
  lemma {:induction false} LatestExists(t: Table, pending: set<ThreadId>)
    requires pending != {} && pending <= t.Keys
    ensures exists k :: k in pending && forall k' :: k' in pending ==> t[k'].createdAt <= t[k].createdAt
  {
    var x :| x in pending;
    if pending != {x} {
      LatestExists(t, pending - {x});
      var m :| m in pending - {x} && forall k' :: k' in pending - {x} ==> t[k'].createdAt <= t[m].createdAt;
      if t[x].createdAt <= t[m].createdAt {
        assert forall k' :: k' in pending ==> t[k'].createdAt <= t[m].createdAt;
      } else {
        assert forall k' :: k' in pending ==> t[k'].createdAt <= t[x].createdAt;
      }
    }
  }

  /** The thread ids a sequence of answers mentions. */
  ghost function ThreadIds(s: seq<ThreadInfo>): set<ThreadId>
  {
    set i | 0 <= i < |s| :: s[i].threadId
  }

  lemma ThreadIdsAppend(s: seq<ThreadInfo>, x: ThreadInfo)
    ensures ThreadIds(s + [x]) == ThreadIds(s) + {x.threadId}
  {
    var s' := s + [x];
    forall k | k in ThreadIds(s') ensures k in ThreadIds(s) + {x.threadId} {
      var i :| 0 <= i < |s'| && s'[i].threadId == k;
      if i < |s| { assert s[i] == s'[i]; }
    }
    forall k | k in ThreadIds(s) ensures k in ThreadIds(s') {
      var i :| 0 <= i < |s| && s[i].threadId == k;
      assert s'[i] == s[i];
    }
    assert s'[|s|] == x;
  }

  /** GET /users/{user_id}/threads (`ORDER BY created_at DESC`). */
  method ListUserThreads(t: Table, userId: UserId) returns (threads: seq<ThreadInfo>)
    ensures IsUserListing(t, userId, threads)
  {
    var owned := set k | k in t && t[k].userId == userId;
    var pending := owned;
    threads := [];
    while pending != {}
      invariant pending <= owned
      invariant ThreadIds(threads) == owned - pending
      invariant forall i :: 0 <= i < |threads| ==>
        threads[i].threadId in owned && threads[i] == InfoOf(threads[i].threadId, t[threads[i].threadId])
      invariant forall i, j :: 0 <= i < j < |threads| ==> threads[i].threadId != threads[j].threadId
      invariant forall i, j :: 0 <= i < j < |threads| ==> threads[i].createdAt >= threads[j].createdAt
      invariant forall i, k :: 0 <= i < |threads| && k in pending ==> threads[i].createdAt >= t[k].createdAt
      decreases pending
    {
      LatestExists(t, pending);
      var k :| k in pending && forall k' :: k' in pending ==> t[k'].createdAt <= t[k].createdAt;
      ThreadIdsAppend(threads, InfoOf(k, t[k]));
      assert k !in ThreadIds(threads);
      threads := threads + [InfoOf(k, t[k])];
      pending := pending - {k};
    }
    forall k | k in t && t[k].userId == userId ensures exists i :: 0 <= i < |threads| && threads[i].threadId == k {
      assert k in ThreadIds(threads);
    }
  }

  lemma {:induction false} DistinctIdsCount(s: seq<ThreadInfo>)
    requires forall i, j :: 0 <= i < j < |s| ==> s[i].threadId != s[j].threadId
    ensures |ThreadIds(s)| == |s|
  {
    if s != [] {
      var last := |s| - 1;
      DistinctIdsCount(s[..last]);
      assert ThreadIds(s) == ThreadIds(s[..last]) + {s[last].threadId} by {
        forall k | k in ThreadIds(s) ensures k in ThreadIds(s[..last]) + {s[last].threadId} {
          var i :| 0 <= i < |s| && s[i].threadId == k;
          if i < last { assert s[..last][i] == s[i]; }
        }
        forall k | k in ThreadIds(s[..last]) ensures k in ThreadIds(s) {
          var i :| 0 <= i < last && s[..last][i].threadId == k;
          assert s[i].threadId == k;
        }
      }
      assert s[last].threadId !in ThreadIds(s[..last]);
    }
  }

  /** A listing names exactly the user's threads, so it has one entry per owned thread. */
  lemma ListingCoversOwned(t: Table, userId: UserId, s: seq<ThreadInfo>)
    requires IsUserListing(t, userId, s)
    ensures ThreadIds(s) == OwnedThreads(t, userId)
    ensures |s| == |OwnedThreads(t, userId)|
  {
    forall k | k in OwnedThreads(t, userId) ensures k in ThreadIds(s) {
      var i :| 0 <= i < |s| && s[i].threadId == k;
    }
    DistinctIdsCount(s);
  }

  /** Two answers of the listing for the same table and user hold the same entries; only ties may be ordered differently. */
  lemma ListingsAgree(t: Table, userId: UserId, s1: seq<ThreadInfo>, s2: seq<ThreadInfo>)
    requires IsUserListing(t, userId, s1) && IsUserListing(t, userId, s2)
    ensures |s1| == |s2|
    ensures forall i :: 0 <= i < |s1| ==> s1[i] in s2
    // two entries that the listings put in opposite orders have the same `created_at`
    ensures forall i1, j1, i2, j2 ::
      0 <= i1 < j1 < |s1| && 0 <= j2 < i2 < |s2| && s1[i1] == s2[i2] && s1[j1] == s2[j2] ==>
        s1[i1].createdAt == s1[j1].createdAt
  {
    ListingCoversOwned(t, userId, s1);
    ListingCoversOwned(t, userId, s2);
    forall i | 0 <= i < |s1| ensures s1[i] in s2 {
      var k := s1[i].threadId;
      assert k in OwnedThreads(t, userId);
      var j :| 0 <= j < |s2| && s2[j].threadId == k;
    }
  }

  /** The stored registry; the three handlers that write to it change `rows` in place. */
  class OwnershipStore {
    var rows: Table

    constructor ()
      ensures rows == map[]
    {
      rows := map[];
    }

    method CreateUserThread(userId: UserId, threadId: ThreadId, title: Option<string>, now: Timestamp)
      returns (r: Reply<ThreadInfo>)
      modifies this
      ensures rows == CreateThread(old(rows), userId, threadId, title, now).table
      ensures r == CreateThread(old(rows), userId, threadId, title, now).reply
    {
      var newTitle := TitleFor(title, threadId);
      if threadId in rows {
        var existing := rows[threadId];
        if existing.userId != userId {
          return Forbidden;
        }
        return Ok(InfoOf(threadId, existing));
      }
      rows := rows[threadId := Row(userId, newTitle, now)];
      r := Ok(ThreadInfo(threadId, userId, newTitle, now));
    }

    method DeleteUserThread(userId: UserId, threadId: ThreadId) returns (r: Reply<ThreadId>)
      modifies this
      ensures rows == DeleteThread(old(rows), userId, threadId).table
      ensures r == DeleteThread(old(rows), userId, threadId).reply
    {
      if threadId !in rows {
        return NotFound;
      }
      if rows[threadId].userId != userId {
        return Forbidden;
      }
      rows := rows - {threadId};
      r := Ok(threadId);
    }

    method UpdateThreadTitle(userId: UserId, threadId: ThreadId, title: string) returns (r: Reply<ThreadInfo>)
      modifies this
      ensures rows == UpdateTitle(old(rows), userId, threadId, title).table
      ensures r == UpdateTitle(old(rows), userId, threadId, title).reply
    {
      if threadId !in rows {
        return NotFound;
      }
      var existing := rows[threadId];
      if existing.userId != userId {
        return Forbidden;
      }
      rows := rows[threadId := existing.(title := title)];
      r := Ok(ThreadInfo(threadId, userId, title, existing.createdAt));
    }
  }
}
