/** The walk over all enabled channels, in batches that start after the last id seen. */
module ChannelWalk {

  const BATCH_SIZE := 100

  ghost predicate Ascending(ids: seq<int>) {
    forall i, j :: 0 <= i < j < |ids| ==> ids[i] < ids[j]
  }

  function AtMost(ids: seq<int>, id: int): (k: nat)
    ensures k <= |ids|
  {
    if ids == [] || ids[0] > id then 0 else 1 + AtMost(ids[1..], id)
  }

  /** The first `limit` ids; only those past `lastID` when that is positive. */
  function Query(ids: seq<int>, lastID: int, limit: nat): seq<int> {
    var rest := if lastID > 0 then ids[AtMost(ids, lastID)..] else ids;
    if |rest| <= limit then rest else rest[..limit]
  }

  lemma {:induction false} AtMostIs(ids: seq<int>, k: nat)
    requires Ascending(ids) && k < |ids|
    ensures AtMost(ids, ids[k]) == k + 1
  {
    if k > 0 {
      AtMostIs(ids[1..], k - 1);
    } else if |ids| > 1 {
      assert ids[1..][0] > ids[0];
    }
  }

  datatype Walk = Walk(lastID: int, visited: seq<int>, done: bool)

  function Round(ids: seq<int>, limit: nat, w: Walk): Walk {
    if w.done then w
    else
      var batch := Query(ids, w.lastID, limit);
      if batch == [] then w.(done := true)
      else Walk(batch[|batch| - 1], w.visited + batch, |batch| < limit)
  }

  function Rounds(ids: seq<int>, limit: nat, n: nat): Walk {
    if n == 0 then Walk(0, [], false) else Round(ids, limit, Rounds(ids, limit, n - 1))
  }

  /** The id that ends the first full batch, if there is one, is positive. */
  ghost predicate Advances(ids: seq<int>, limit: nat)
    requires limit > 0
  {
    |ids| < limit || ids[limit - 1] > 0
  }

  ghost predicate UpTo(ids: seq<int>, lastID: int, k: nat) {
    k <= |ids| && if k == 0 then lastID == 0 else lastID == ids[k - 1] && lastID > 0
  }

  /** Every batch starts where the one before it ended, and only the last one is short. */
  lemma NextBatch(ids: seq<int>, limit: nat, lastID: int, k: nat)
    requires Ascending(ids) && UpTo(ids, lastID, k)
    ensures var batch := Query(ids, lastID, limit);
            && |batch| == (if |ids| - k <= limit then |ids| - k else limit)
            && ids[..k] + batch == ids[..k + |batch|]
            && (batch != [] ==> batch[|batch| - 1] == ids[k + |batch| - 1])
  {
    if k > 0 { AtMostIs(ids, k - 1); }
    var batch := Query(ids, lastID, limit);
    assert batch == ids[k..k + |batch|];
  }

  lemma Positive(ids: seq<int>, limit: nat, k: nat)
    requires Ascending(ids) && limit > 0 && Advances(ids, limit) && k + limit <= |ids|
    ensures ids[k + limit - 1] > 0
  {
    assert k > 0 ==> ids[limit - 1] < ids[k + limit - 1];
  }

  lemma RoundStep(ids: seq<int>, limit: nat, w: Walk)
    requires Ascending(ids) && limit > 0 && Advances(ids, limit) && !w.done && w.visited <= ids
    requires UpTo(ids, w.lastID, |w.visited|)
    ensures var w' := Round(ids, limit, w);
            && w'.visited <= ids
            && (w'.done ==> w'.visited == ids)
            && (!w'.done ==> |w'.visited| == |w.visited| + limit && UpTo(ids, w'.lastID, |w'.visited|))
  {
    var k := |w.visited|;
    NextBatch(ids, limit, w.lastID, k);
    if k + limit <= |ids| { Positive(ids, limit, k); }
    assert w.visited == ids[..k];
  }

  lemma {:induction false} RoundsVisit(ids: seq<int>, limit: nat, n: nat)
    requires Ascending(ids) && limit > 0 && Advances(ids, limit)
    ensures var w := Rounds(ids, limit, n);
            && w.visited <= ids
            && (w.done ==> w.visited == ids)
            && (!w.done ==> |w.visited| >= n && UpTo(ids, w.lastID, |w.visited|))
  {
    if n > 0 {
      RoundsVisit(ids, limit, n - 1);
      var w := Rounds(ids, limit, n - 1);
      if !w.done { RoundStep(ids, limit, w); }
    }
  }

  /** Otherwise the first batch comes back for ever. */
  lemma {:induction false} RoundsRepeat(ids: seq<int>, limit: nat, n: nat)
    requires limit > 0 && !Advances(ids, limit)
    ensures !Rounds(ids, limit, n).done && Rounds(ids, limit, n).lastID <= 0
    ensures Rounds(ids, limit, n + 1).visited == Rounds(ids, limit, n).visited + ids[..limit]
  {
    if n > 0 { RoundsRepeat(ids, limit, n - 1); }
    var w := Rounds(ids, limit, n);
    assert Query(ids, w.lastID, limit) == ids[..limit];
  }

  ghost predicate Ends(ids: seq<int>, limit: nat, n: nat) {
    Rounds(ids, limit, n).done
  }

  /**
   The walk ends exactly when the first full batch ends in a positive id, and has then seen every channel
   once, in order.
   */
  lemma WalkEndsIff(ids: seq<int>, limit: nat)
    requires Ascending(ids) && limit > 0
    ensures (exists n: nat :: Ends(ids, limit, n)) <==> Advances(ids, limit)
    ensures forall n: nat :: Ends(ids, limit, n) ==> Rounds(ids, limit, n).visited == ids
  {
    if Advances(ids, limit) {
      forall n: nat ensures Ends(ids, limit, n) ==> Rounds(ids, limit, n).visited == ids { RoundsVisit(ids, limit, n); }
      RoundsVisit(ids, limit, |ids| + 1);
      assert Ends(ids, limit, |ids| + 1);
    } else {
      forall n: nat ensures !Ends(ids, limit, n) { RoundsRepeat(ids, limit, n); }
    }
  }

  /** The loop itself, with a query that may fail and end it early. */
  method VisitEnabled(ids: seq<int>, fails: nat -> bool) returns (visited: seq<int>, rounds: nat)
    requires Ascending(ids) && Advances(ids, BATCH_SIZE)
    ensures visited <= ids
    ensures (forall k: nat :: !fails(k)) ==> visited == ids
    ensures visited != ids ==> fails(rounds) && |visited| == rounds * BATCH_SIZE
  {
    var lastID := 0;
    visited, rounds := [], 0;
    while true
      invariant visited <= ids && |visited| == rounds * BATCH_SIZE
      invariant UpTo(ids, lastID, |visited|)
      decreases |ids| - |visited|
    {
      if fails(rounds) { break; }
      var batch := Query(ids, lastID, BATCH_SIZE);
      RoundStep(ids, BATCH_SIZE, Walk(lastID, visited, false));
      if |batch| == 0 { break; }
      lastID := batch[|batch| - 1];
      visited := visited + batch;
      if |batch| < BATCH_SIZE { break; }
      rounds := rounds + 1;
    }
  }
}
