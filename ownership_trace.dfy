/**
 * What the ownership handlers guarantee about each other and over any sequence
 * of requests served one after another.
 */
module OwnershipTrace {
  import opened Wrappers
  import opened Ownership

  /** The requests that write to the table. */
  datatype Request =
    | Create(userId: UserId, threadId: ThreadId, title: Option<string>, now: Timestamp)
    | Delete(userId: UserId, threadId: ThreadId)
    | Rename(userId: UserId, threadId: ThreadId, newTitle: string)

  /** The table after serving one request. */
  function Apply(t: Table, req: Request): Table
  {
    match req
    case Create(u, k, title, now) => CreateThread(t, u, k, title, now).table
    case Delete(u, k) => DeleteThread(t, u, k).table
    case Rename(u, k, title) => UpdateTitle(t, u, k, title).table
  }

  /** The table after serving `reqs` in order. */
  function Run(t: Table, reqs: seq<Request>): Table
    decreases |reqs|
  {
    if reqs == [] then t else Run(Apply(t, reqs[0]), reqs[1..])
  }

  /** A request that changes a row always comes from the row's owner and names that thread; creating never changes a row. */
  lemma StepKeepsRow(t: Table, req: Request, k: ThreadId)
    requires k in t
    requires req.threadId != k || req.userId != t[k].userId || req.Create?
    ensures k in Apply(t, req) && Apply(t, req)[k] == t[k]
  {
  }

  /** Across any sequence of requests, a row stays as it was unless its owner sent a delete or rename for it. */
  lemma {:induction false} RowChangesOnlyByOwner(t: Table, reqs: seq<Request>, k: ThreadId)
    requires k in t
    ensures || (k in Run(t, reqs) && Run(t, reqs)[k] == t[k])
            || exists i :: 0 <= i < |reqs| && reqs[i].threadId == k && reqs[i].userId == t[k].userId && !reqs[i].Create?
    decreases |reqs|
  {
    if reqs != [] {
      var r := reqs[0];
      if r.threadId == k && r.userId == t[k].userId && !r.Create? {
        assert 0 < |reqs|;
      } else {
        StepKeepsRow(t, r, k);
        var t1 := Apply(t, r);
        RowChangesOnlyByOwner(t1, reqs[1..], k);
        if !(k in Run(t, reqs) && Run(t, reqs)[k] == t[k]) {
          var i :| 0 <= i < |reqs[1..]| && reqs[1..][i].threadId == k && reqs[1..][i].userId == t1[k].userId
                   && !reqs[1..][i].Create?;
          assert reqs[i + 1] == reqs[1..][i];
        }
      }
    }
  }

  /** Ownership never transfers: a thread leaves its owner only through a delete the owner sent. */
  lemma {:induction false} OwnerLeavesOnlyByDelete(t: Table, reqs: seq<Request>, k: ThreadId)
    requires k in t
    requires k !in Run(t, reqs) || Run(t, reqs)[k].userId != t[k].userId
    ensures Delete(t[k].userId, k) in reqs
    decreases |reqs|
  {
    assert reqs != [];
    var r := reqs[0];
    var t1 := Apply(t, r);
    if r != Delete(t[k].userId, k) {
      assert k in t1 && t1[k].userId == t[k].userId;
      OwnerLeavesOnlyByDelete(t1, reqs[1..], k);
      assert reqs == [r] + reqs[1..];
    }
  }

  /** Whoever owns a thread at the end created it, unless they already owned it at the start. */
  lemma {:induction false} OwnerIsCreator(t: Table, reqs: seq<Request>, k: ThreadId)
    requires k in Run(t, reqs)
    requires k !in t || Run(t, reqs)[k].userId != t[k].userId
    ensures exists i :: 0 <= i < |reqs| && reqs[i].Create? && reqs[i].threadId == k
                        && reqs[i].userId == Run(t, reqs)[k].userId
    decreases |reqs|
  {
    assert reqs != [];
    var r := reqs[0];
    var t1 := Apply(t, r);
    var owner := Run(t, reqs)[k].userId;
    assert Run(t, reqs) == Run(t1, reqs[1..]);
    if k !in t1 || owner != t1[k].userId {
      OwnerIsCreator(t1, reqs[1..], k);
      var i :| 0 <= i < |reqs[1..]| && reqs[1..][i].Create? && reqs[1..][i].threadId == k
               && reqs[1..][i].userId == owner;
      assert reqs[i + 1] == reqs[1..][i];
    } else {
      // the first request gave `k` its final owner: only a create can do that
      assert r.Create? && r.threadId == k && r.userId == owner;
    }
  }

  /** Creating twice is the same as creating once: the second call stores nothing and answers with the stored row. */
  lemma CreateIdempotent(t: Table, userId: UserId, threadId: ThreadId,
                         title: Option<string>, now: Timestamp, title': Option<string>, later: Timestamp)
    requires CreateThread(t, userId, threadId, title, now).reply.Ok?
    ensures var first := CreateThread(t, userId, threadId, title, now);
            CreateThread(first.table, userId, threadId, title', later) == first
  {
  }

  /** Create is refused exactly when the access check refuses the user. */
  lemma CreateForbiddenIffAccessDenied(t: Table, userId: UserId, threadId: ThreadId, title: Option<string>, now: Timestamp)
    ensures CreateThread(t, userId, threadId, title, now).reply.Forbidden? <==> !VerifyThreadOwnership(t, userId, threadId)
  {
  }

  /** Delete and rename succeed exactly on a registered thread that the access check grants to the user. */
  lemma MutationAllowedIffOwner(t: Table, userId: UserId, threadId: ThreadId, title: string)
    ensures DeleteThread(t, userId, threadId).reply.Ok? <==> GetThreadOwner(t, threadId) == Some(userId)
    ensures UpdateTitle(t, userId, threadId, title).reply.Ok? <==> GetThreadOwner(t, threadId) == Some(userId)
    ensures GetThreadOwner(t, threadId) == Some(userId) ==> VerifyThreadOwnership(t, userId, threadId)
  {
  }

  /** After a successful create the owner lookup names the creator; after a successful delete it finds nothing and every user is let in again. */
  lemma OwnerAfterCreateAndDelete(t: Table, userId: UserId, other: UserId, threadId: ThreadId, title: Option<string>, now: Timestamp)
    ensures var o := CreateThread(t, userId, threadId, title, now);
            o.reply.Ok? ==> GetThreadOwner(o.table, threadId) == Some(userId)
    ensures var o := DeleteThread(t, userId, threadId);
            o.reply.Ok? ==> GetThreadOwner(o.table, threadId) == None && VerifyThreadOwnership(o.table, other, threadId)
  {
  }
}
