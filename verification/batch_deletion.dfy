/** The deletion loop at the end of the cleaner's main routine: the selected
    ids are sent to the server in consecutive batches of 50 and successes
    are counted. The loop stops at the first batch the server refuses; a
    request that raises ends the whole run before the final report. */
module BatchDeletion {
  import opened Wrappers
  import opened Assets
  import opened ImmichApi

  const BatchSize: nat := 50

  /** The slices `ids[i:i + 50]` for `i` in `range(0, len(ids), 50)`. */
  function Batches(ids: seq<AssetId>): (batches: seq<seq<AssetId>>)
    ensures |batches| == (|ids| + BatchSize - 1) / BatchSize
    ensures forall k :: 0 <= k < |batches| ==> 0 < |batches[k]| <= BatchSize
    ensures forall k :: 0 <= k < |batches| - 1 ==> |batches[k]| == BatchSize
    decreases |ids|
  {
    if ids == [] then []
    else if |ids| <= BatchSize then [ids]
    else [ids[..BatchSize]] + Batches(ids[BatchSize..])
  }

  /** The concatenation of a sequence of batches. */
  function Flatten(batches: seq<seq<AssetId>>): seq<AssetId>
    decreases |batches|
  {
    if batches == [] then [] else batches[0] + Flatten(batches[1..])
  }

  function Min(a: int, b: int): int {
    if a <= b then a else b
  }

  /** Batch `k` is the slice of the ids starting at `50 * k`, cut at the end
      of the list. */
  lemma {:induction false} BatchAt(ids: seq<AssetId>, k: nat)
    requires k < |Batches(ids)|
    ensures BatchSize * k < |ids|
    ensures Batches(ids)[k] == ids[BatchSize * k .. Min(BatchSize * k + BatchSize, |ids|)]
    decreases |ids|
  {
    if |ids| > BatchSize && k > 0 {
      var rest := ids[BatchSize..];
      BatchAt(rest, k - 1);
      assert Batches(ids)[k] == Batches(rest)[k - 1];
      var lo, hi := BatchSize * (k - 1), Min(BatchSize * (k - 1) + BatchSize, |rest|);
      assert BatchSize * k == lo + BatchSize;
      assert Min(BatchSize * k + BatchSize, |ids|) == hi + BatchSize;
      assert rest[lo..hi] == ids[lo + BatchSize .. hi + BatchSize];
    }
  }

  /** The first `k` batches together are the first `50 * k` ids (all of them
      once `k` reaches the number of batches). */
  lemma {:induction false} FirstBatchesArePrefix(ids: seq<AssetId>, k: nat)
    requires k <= |Batches(ids)|
    ensures Flatten(Batches(ids)[..k]) == ids[..Min(BatchSize * k, |ids|)]
    decreases |ids|
  {
    var batches := Batches(ids);
    if k > 0 {
      if |ids| <= BatchSize {
        assert batches[..k] == [ids];
        assert Flatten([ids]) == ids + Flatten([]);
      } else {
        var rest := ids[BatchSize..];
        FirstBatchesArePrefix(rest, k - 1);
        assert batches[..k] == [ids[..BatchSize]] + Batches(rest)[..k - 1];
        assert batches[..k][1..] == Batches(rest)[..k - 1];
        assert ids[..Min(BatchSize * k, |ids|)]
            == ids[..BatchSize] + rest[..Min(BatchSize * (k - 1), |rest|)];
      }
    }
  }

  /** Together the batches are exactly the id list, in order. */
  lemma BatchesCoverIds(ids: seq<AssetId>)
    ensures Flatten(Batches(ids)) == ids
  {
    var batches := Batches(ids);
    FirstBatchesArePrefix(ids, |batches|);
    assert batches[..|batches|] == batches;
  }

  lemma {:induction false} FlattenSnoc(batches: seq<seq<AssetId>>, batch: seq<AssetId>)
    ensures Flatten(batches + [batch]) == Flatten(batches) + batch
    decreases |batches|
  {
    if batches == [] {
      assert [] + [batch] == [batch];
    } else {
      FlattenSnoc(batches[1..], batch);
      assert (batches + [batch])[1..] == batches[1..] + [batch];
    }
  }

  /** Whether the server accepted a batch: it answered 204. */
  predicate Accepted(outcome: DeleteOutcome) {
    outcome == Status(204)
  }

  /** The number of leading batches, among the first `count`, that the
      server accepts: the index of the first failing batch, or `count` when
      none fails. */
  function SucceededBatches(outcomes: seq<DeleteOutcome>, count: nat): (n: nat)
    requires count <= |outcomes|
    ensures n <= count
    ensures forall k :: 0 <= k < n ==> Accepted(outcomes[k])
    ensures n < count ==> !Accepted(outcomes[n])
    decreases count
  {
    if count == 0 || !Accepted(outcomes[0]) then 0
    else 1 + SucceededBatches(outcomes[1..], count - 1)
  }

  /** The batches a run sends: those up to and including the first failing one. */
  function AttemptedBatches(ids: seq<AssetId>, outcomes: seq<DeleteOutcome>): (n: nat)
    requires |Batches(ids)| <= |outcomes|
    ensures n <= |Batches(ids)|
    ensures n == |Batches(ids)| || (0 < n && !Accepted(outcomes[n - 1]))
    ensures forall k :: 0 <= k < n - 1 ==> Accepted(outcomes[k])
  {
    var succeeded := SucceededBatches(outcomes, |Batches(ids)|);
    if succeeded < |Batches(ids)| then succeeded + 1 else succeeded
  }

  /** Whether a run ends with an exception: its first failing batch is one
      whose request raised. */
  predicate Crashes(ids: seq<AssetId>, outcomes: seq<DeleteOutcome>)
    requires |Batches(ids)| <= |outcomes|
  {
    var succeeded := SucceededBatches(outcomes, |Batches(ids)|);
    succeeded < |Batches(ids)| && outcomes[succeeded].Raised?
  }

  /** The ids a run deletes, the batches before the first failure: the
      first `50 * s` ids, cut at the end of the list, where `s` is the
      number of those batches. */
  function DeletedIds(ids: seq<AssetId>, outcomes: seq<DeleteOutcome>): (deleted: seq<AssetId>)
    requires |Batches(ids)| <= |outcomes|
    ensures deleted == ids[..Min(BatchSize * SucceededBatches(outcomes, |Batches(ids)|), |ids|)]
  {
    var succeeded := SucceededBatches(outcomes, |Batches(ids)|);
    FirstBatchesArePrefix(ids, succeeded);
    Flatten(Batches(ids)[..succeeded])
  }

  /** How a run of the loop ends: it reaches the final report, or an
      exception from a request ends it first. Either way `deleted` is the
      value `total_deleted` has reached. */
  datatype RunOutcome = Completed(deleted: nat) | Crashed(deleted: nat)

  /** The batch loop, with `outcomes[k]` what the `k`-th request meets. It
      returns how the run ends and the requests it sent. */
  method DeleteInBatches(assetsToDelete: seq<AssetId>, outcomes: seq<DeleteOutcome>)
      returns (run: RunOutcome, requests: seq<seq<AssetId>>)
    requires |Batches(assetsToDelete)| <= |outcomes|
    ensures requests == Batches(assetsToDelete)[..AttemptedBatches(assetsToDelete, outcomes)]
    ensures run.deleted == |DeletedIds(assetsToDelete, outcomes)|
    ensures run.Crashed? <==> Crashes(assetsToDelete, outcomes)
  {
    ghost var batches := Batches(assetsToDelete);
    var totalDeleted := 0;
    requests := [];
    var i := 0;
    ghost var b := 0;
    while i < |assetsToDelete|
      invariant b <= |batches| && i == BatchSize * b
      invariant i < |assetsToDelete| <==> b < |batches|
      invariant forall k :: 0 <= k < b ==> Accepted(outcomes[k])
      invariant requests == batches[..b]
      invariant totalDeleted == |Flatten(batches[..b])|
      decreases |assetsToDelete| - i
    {
      var end := if i + BatchSize < |assetsToDelete| then i + BatchSize else |assetsToDelete|;
      var batch := assetsToDelete[i..end];
      BatchAt(assetsToDelete, b);
      assert batch == batches[b];
      FlattenSnoc(batches[..b], batch);
      assert batches[..b + 1] == batches[..b] + [batch];
      assert i / BatchSize == b;
      var r, sent := DeleteAssets(batch, outcomes[i / BatchSize]);
      requests := requests + [sent.value.ids];
      if r.Err? {
        assert SucceededBatches(outcomes, |batches|) == b;
        return Crashed(totalDeleted), requests;
      } else if r.value {
        totalDeleted := totalDeleted + |batch|;
      } else {
        assert SucceededBatches(outcomes, |batches|) == b;
        return Completed(totalDeleted), requests;
      }
      i := i + BatchSize;
      b := b + 1;
    }
    assert SucceededBatches(outcomes, |batches|) == b;
    assert batches[..b] == batches;
    run := Completed(totalDeleted);
  }

  /** No batch after a failing one is sent. */
  lemma NothingSentAfterFailure(ids: seq<AssetId>, outcomes: seq<DeleteOutcome>, k: nat)
    requires |Batches(ids)| <= |outcomes|
    requires k < |Batches(ids)| && !Accepted(outcomes[k])
    ensures AttemptedBatches(ids, outcomes) <= k + 1
    ensures |DeletedIds(ids, outcomes)| <= BatchSize * k
  {
  }

  /** When every batch succeeds, every batch is sent, every id deleted and
      the run reaches its report. */
  lemma AllBatchesSucceed(ids: seq<AssetId>, outcomes: seq<DeleteOutcome>)
    requires |Batches(ids)| <= |outcomes|
    requires forall k :: 0 <= k < |Batches(ids)| ==> Accepted(outcomes[k])
    ensures AttemptedBatches(ids, outcomes) == |Batches(ids)|
    ensures DeletedIds(ids, outcomes) == ids
    ensures !Crashes(ids, outcomes)
  {
    var batches := Batches(ids);
    BatchesCoverIds(ids);
    assert batches[..|batches|] == batches;
  }

  /** 150 ids make three batches of 50; when the server refuses the second,
      two requests are sent, 50 ids deleted and the run reaches its report. */
  lemma SecondBatchRefusedExample(ids: seq<AssetId>)
    requires |ids| == 150
    ensures AttemptedBatches(ids, [Status(204), Status(500), Status(204)]) == 2
    ensures |DeletedIds(ids, [Status(204), Status(500), Status(204)])| == 50
    ensures !Crashes(ids, [Status(204), Status(500), Status(204)])
  {
    var outcomes := [Status(204), Status(500), Status(204)];
    assert |Batches(ids)| == 3;
    assert SucceededBatches(outcomes, 3) == 1;
  }

  /** The same run when the second request raises instead: two requests
      are sent and 50 ids deleted, but the run ends with the exception. */
  lemma SecondBatchRaisesExample(ids: seq<AssetId>)
    requires |ids| == 150
    ensures AttemptedBatches(ids, [Status(204), Raised, Status(204)]) == 2
    ensures |DeletedIds(ids, [Status(204), Raised, Status(204)])| == 50
    ensures Crashes(ids, [Status(204), Raised, Status(204)])
  {
    var outcomes := [Status(204), Raised, Status(204)];
    assert |Batches(ids)| == 3;
    assert SucceededBatches(outcomes, 3) == 1;
  }
}
