/** The keyset-paged sweep over all enabled channels: each query asks for the next batch
    of ids above the last one seen, and a short batch ends the sweep. */
module KeysetSweep {
  import opened Basics

  const BATCH_SIZE := 100

  datatype Channel = Channel(id: int, enabled: bool)

  /** A table in id order, with the unique positive ids a database assigns. */
  predicate Table(rows: seq<Channel>) {
    && (forall i :: 0 <= i < |rows| ==> rows[i].id > 0)
    && (forall i, j :: 0 <= i < j < |rows| ==> rows[i].id < rows[j].id)
  }

  function EnabledUpTo(rows: seq<Channel>, n: nat): seq<int>
    requires n <= |rows|
  {
    if n == 0 then [] else EnabledUpTo(rows, n - 1) + if rows[n - 1].enabled then [rows[n - 1].id] else []
  }

  function Enabled(rows: seq<Channel>): seq<int> {
    EnabledUpTo(rows, |rows|)
  }

  /** WHERE id > lastID, a condition left out while lastID is not positive. */
  function Above(ids: seq<int>, lastID: int): seq<int> {
    if ids == [] then []
    else Above(Most(ids), lastID) + if lastID > 0 && Last(ids) <= lastID then [] else [Last(ids)]
  }

  /** findEnabledChannelsAfterID, answered by the database. */
  function FindEnabledAfter(rows: seq<Channel>, lastID: int, limit: nat): seq<int> {
    var found := Above(Enabled(rows), lastID);
    if |found| <= limit then found else found[..limit]
  }

  predicate Ascending(ids: seq<int>) {
    && (forall i :: 0 <= i < |ids| ==> ids[i] > 0)
    && (forall i, j :: 0 <= i < j < |ids| ==> ids[i] < ids[j])
  }

  lemma {:induction false} EnabledOnly(rows: seq<Channel>, n: nat)
    requires n <= |rows|
    ensures forall id :: id in EnabledUpTo(rows, n) ==> exists i :: 0 <= i < n && rows[i] == Channel(id, true)
    ensures forall i :: 0 <= i < n && rows[i].enabled ==> rows[i].id in EnabledUpTo(rows, n)
  {
    if n > 0 {
      EnabledOnly(rows, n - 1);
    }
  }

  lemma {:induction false} EnabledAscending(rows: seq<Channel>, n: nat)
    requires Table(rows) && n <= |rows|
    ensures Ascending(EnabledUpTo(rows, n))
  {
    if n > 0 {
      EnabledAscending(rows, n - 1);
      EnabledOnly(rows, n - 1);
      var ids := EnabledUpTo(rows, n - 1);
      forall i | 0 <= i < |ids|
        ensures ids[i] < rows[n - 1].id
      {
        assert ids[i] in ids;
      }
    }
  }

  /** The ids to visit: exactly those of enabled rows, in ascending order, none twice. */
  lemma EnabledFacts(rows: seq<Channel>)
    requires Table(rows)
    ensures Ascending(Enabled(rows))
    ensures forall id :: id in Enabled(rows) <==> Channel(id, true) in rows
  {
    EnabledAscending(rows, |rows|);
    EnabledOnly(rows, |rows|);
  }

  lemma {:induction false} AboveNothing(ids: seq<int>, lastID: int)
    requires lastID <= 0
    ensures Above(ids, lastID) == ids
  {
    if ids != [] {
      AboveNothing(Most(ids), lastID);
      assert Most(ids) + [Last(ids)] == ids;
    }
  }

  /** Why the ids must be positive: after a batch that ends at a non-positive id the
      query is the first one again, and the sweep would never advance. */
  lemma NonPositiveRepeats(rows: seq<Channel>, lastID: int, limit: nat)
    requires lastID <= 0
    ensures FindEnabledAfter(rows, lastID, limit) == FindEnabledAfter(rows, 0, limit)
  {
    AboveNothing(Enabled(rows), lastID);
    AboveNothing(Enabled(rows), 0);
  }

  /** Ids above the n-th are those after it. */
  lemma {:induction false} AboveNth(ids: seq<int>, n: nat)
    requires Ascending(ids) && 0 < n <= |ids|
    ensures Above(ids, ids[n - 1]) == ids[n..]
  {
    if n == |ids| {
      AboveAll(ids, ids[n - 1]);
    } else {
      AboveNth(Most(ids), n);
      assert ids[n..] == Most(ids)[n..] + [Last(ids)];
    }
  }

  lemma {:induction false} AboveAll(ids: seq<int>, lastID: int)
    requires lastID > 0 && forall i :: 0 <= i < |ids| ==> ids[i] <= lastID
    ensures Above(ids, lastID) == []
  {
    if ids != [] {
      AboveAll(Most(ids), lastID);
    }
  }

  /** The batch that follows the first `n` ids. */
  lemma NextBatch(rows: seq<Channel>, n: nat, lastID: int)
    requires Table(rows) && n <= |Enabled(rows)|
    requires lastID == if n == 0 then 0 else Enabled(rows)[n - 1]
    ensures var batch, left := FindEnabledAfter(rows, lastID, 100), |Enabled(rows)| - n;
      && |batch| == (if left <= 100 then left else 100)
      && forall i :: 0 <= i < |batch| ==> batch[i] == Enabled(rows)[n + i]
  {
    EnabledFacts(rows);
    if n == 0 {
      AboveNothing(Enabled(rows), 0);
    } else {
      AboveNth(Enabled(rows), n);
    }
  }

  /** The sweep fails exactly when one of the queries it gets to fails. */
  ghost predicate SomeQueryFails(rows: seq<Channel>, queryFails: nat -> bool) {
    exists q: nat :: q <= |Enabled(rows)| / 100 && queryFails(q)
  }

  ghost predicate FirstFailure(queryFails: nat -> bool, q: nat) {
    queryFails(q) && forall p: nat :: p < q ==> !queryFails(p)
  }

  /** The first `q` full batches. */
  ghost predicate Batches(rows: seq<Channel>, visited: seq<int>, q: nat) {
    q * 100 <= |Enabled(rows)| && visited == Enabled(rows)[..q * 100]
  }

  /** The batch loop.  `queryFails` tells which query, counted from zero, reports an error;
      the sweep then stops.  Without errors it visits every enabled channel once, in order;
      with one, the full batches before it. */
  method Sweep(rows: seq<Channel>, queryFails: nat -> bool) returns (visited: seq<int>, failed: bool)
    requires Table(rows)
    ensures !failed ==> visited == Enabled(rows)
    ensures failed <==> SomeQueryFails(rows, queryFails)
    ensures failed ==> exists q: nat :: FirstFailure(queryFails, q) && Batches(rows, visited, q)
  {
    ghost var all := Enabled(rows);
    visited, failed := [], false;
    var lastID := 0;
    var query: nat := 0;
    while true
      invariant query * BATCH_SIZE <= |all| && visited == all[..query * BATCH_SIZE]
      invariant lastID == if query == 0 then 0 else all[query * BATCH_SIZE - 1]
      invariant forall p: nat :: p < query ==> !queryFails(p)
      decreases |all| - query * BATCH_SIZE
    {
      ghost var n := query * BATCH_SIZE;
      if queryFails(query) {
        assert FirstFailure(queryFails, query);
        return visited, true;
      }
      var channels := FindEnabledAfter(rows, lastID, BATCH_SIZE);
      query := query + 1;
      NextBatch(rows, n, lastID);
      if |channels| == 0 {
        return;
      }
      lastID := channels[|channels| - 1];
      for i := 0 to |channels|
        invariant visited == all[..n + i]
      {
        visited := visited + [channels[i]];
      }
      if |channels| < BATCH_SIZE {
        return;
      }
    }
  }
}
