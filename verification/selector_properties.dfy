/** What the selector promises: which WhatsApp assets it selects, which
    original it reports as kept, when it raises, and the order and size of
    its output. */
module SelectorProperties {
  import opened Wrappers
  import opened Assets
  import opened Classifier
  import opened Selector

  // ---------------------------------------------------------------------
  // The scan over the originals of one WhatsApp asset

  /** Position `k` holds the original the scan reports as kept: larger than
      the WhatsApp copy, as large as every larger original, and the first
      one of that size. */
  predicate IsKeptOriginal(waSize: nat, originals: seq<Asset>, k: int) {
    0 <= k < |originals| && FileSize(originals[k]) > waSize &&
    (forall j :: 0 <= j < |originals| && FileSize(originals[j]) > waSize ==>
       FileSize(originals[j]) <= FileSize(originals[k])) &&
    (forall j :: 0 <= j < k ==> FileSize(originals[j]) < FileSize(originals[k]))
  }

  /** When the scan completes, it found a larger original exactly when one
      exists. */
  lemma {:induction false} ScanFindsLarger(waSize: nat, originals: seq<Asset>)
    requires ScanOriginals(waSize, originals).Ok?
    ensures ScanOriginals(waSize, originals).value.hasLargerOriginal <==>
      exists j :: 0 <= j < |originals| && FileSize(originals[j]) > waSize
    decreases |originals|
  {
    if originals != [] {
      var n := |originals| - 1;
      var init := originals[..n];
      assert originals == init + [originals[n]];
      ScanFindsLarger(waSize, init);
      assert forall j :: 0 <= j < n ==> originals[j] == init[j];
    }
  }

  /** When the scan completes having found a larger original, it holds the
      size and name of the kept original. */
  lemma {:induction false} ScanFindsKeptOriginal(waSize: nat, originals: seq<Asset>)
    requires ScanOriginals(waSize, originals).Ok?
    requires ScanOriginals(waSize, originals).value.hasLargerOriginal
    ensures var s := ScanOriginals(waSize, originals).value;
      exists k :: IsKeptOriginal(waSize, originals, k) &&
        s.largestOriginalSize == FileSize(originals[k]) &&
        originals[k].originalFileName == Some(s.largestOriginalName)
    decreases |originals|
  {
    var n := |originals| - 1;
    var init, last := originals[..n], originals[n];
    assert originals == init + [last];
    var s0 := ScanOriginals(waSize, init).value;
    assert forall j :: 0 <= j < n ==> originals[j] == init[j];
    if FileSize(last) > waSize && FileSize(last) > s0.largestOriginalSize {
      if s0.hasLargerOriginal {
        ScanFindsKeptOriginal(waSize, init);
        var k :| IsKeptOriginal(waSize, init, k) && s0.largestOriginalSize == FileSize(init[k]);
      } else {
        ScanFindsLarger(waSize, init);
      }
      assert IsKeptOriginal(waSize, originals, n);
    } else {
      ScanFindsKeptOriginal(waSize, init);
      var k :| IsKeptOriginal(waSize, init, k) && s0.largestOriginalSize == FileSize(init[k]) &&
               init[k].originalFileName == Some(s0.largestOriginalName);
      assert IsKeptOriginal(waSize, originals, k);
    }
  }

  /** Position `k` holds an original that the scan takes as the new largest,
      and whose `originalFileName` key it therefore reads. */
  predicate IsNewLargest(waSize: nat, originals: seq<Asset>, k: int) {
    0 <= k < |originals| && FileSize(originals[k]) > waSize &&
    forall j :: 0 <= j < k ==> FileSize(originals[j]) < FileSize(originals[k])
  }

  /** The scan raises exactly when an original it takes as the new largest
      has no `originalFileName` (the error is then that KeyError, by the
      contract of `ScanOriginals`). */
  lemma {:induction false} ScanFailsIff(waSize: nat, originals: seq<Asset>)
    ensures ScanOriginals(waSize, originals).Err? <==>
      exists k :: IsNewLargest(waSize, originals, k) && originals[k].originalFileName.None?
    decreases |originals|
  {
    if originals != [] {
      var n := |originals| - 1;
      var init, last := originals[..n], originals[n];
      assert originals == init + [last];
      ScanFailsIff(waSize, init);
      assert forall j :: 0 <= j < n ==> originals[j] == init[j];
      assert forall k :: 0 <= k < n ==> (IsNewLargest(waSize, originals, k) <==> IsNewLargest(waSize, init, k));
      if ScanOriginals(waSize, init).Ok? {
        var s0 := ScanOriginals(waSize, init).value;
        if s0.hasLargerOriginal {
          ScanFindsKeptOriginal(waSize, init);
          var k :| IsKeptOriginal(waSize, init, k) && s0.largestOriginalSize == FileSize(init[k]);
          assert IsNewLargest(waSize, originals, n) <==>
                 FileSize(last) > waSize && FileSize(last) > s0.largestOriginalSize;
        } else {
          ScanFindsLarger(waSize, init);
          assert IsNewLargest(waSize, originals, n) <==>
                 FileSize(last) > waSize && FileSize(last) > s0.largestOriginalSize;
        }
      }
    }
  }

  // ---------------------------------------------------------------------
  // The decision for one WhatsApp asset

  /** A decision is about the asset it was made for, selects it exactly when
      some original is strictly larger, and reports as kept the first of the
      largest such originals. */
  lemma DecideSelectsIffLargerOriginal(wa: Asset, originals: seq<Asset>)
    requires Decide(wa, originals).Ok?
    ensures var d := Decide(wa, originals).value;
      && d.id == wa.id && d.size == FileSize(wa)
      && (d.Selected? <==> exists j :: 0 <= j < |originals| && FileSize(originals[j]) > FileSize(wa))
      && (d.Selected? ==> d.keptSize > d.size)
      && (d.Selected? ==>
            exists k :: IsKeptOriginal(FileSize(wa), originals, k) &&
              d.keptSize == FileSize(originals[k]) && originals[k].originalFileName == Some(d.keptName))
  {
    ScanFindsLarger(FileSize(wa), originals);
    if ScanOriginals(FileSize(wa), originals).value.hasLargerOriginal {
      ScanFindsKeptOriginal(FileSize(wa), originals);
    }
  }

  // ---------------------------------------------------------------------
  // An independent statement of which ids are selected

  /** Some non-WhatsApp asset of the group is strictly larger than `a`. */
  predicate HasLargerOriginal(a: Asset, group: seq<Asset>, indicators: seq<string>) {
    exists p :: p in group && !IsWhatsAppAsset(p, indicators) && FileSize(p) > FileSize(a)
  }

  /** The three conditions under which the cleaner deletes an asset. */
  predicate ShouldDelete(a: Asset, group: seq<Asset>, indicators: seq<string>) {
    |group| >= 2 && IsWhatsAppAsset(a, indicators) && HasLargerOriginal(a, group, indicators)
  }

  /** The ids of the `candidates` that should be deleted from `group`, in order. */
  function DeletableIds(candidates: seq<Asset>, group: seq<Asset>, indicators: seq<string>): (ids: seq<AssetId>)
    ensures |ids| <= |candidates|
    ensures forall x :: x in ids <==>
      exists a :: a in candidates && ShouldDelete(a, group, indicators) && a.id == x
    decreases |candidates|
  {
    if candidates == [] then []
    else
      var init, last := candidates[..|candidates| - 1], candidates[|candidates| - 1];
      assert candidates == init + [last];
      DeletableIds(init, group, indicators) + (if ShouldDelete(last, group, indicators) then [last.id] else [])
  }

  /** The ids that should be deleted, group after group, each group in asset order. */
  function ExpectedDeletions(groups: seq<DuplicateGroup>, indicators: seq<string>): (ids: seq<AssetId>)
    ensures forall x :: x in ids <==>
      exists g, a :: 0 <= g < |groups| && a in Members(groups[g]) &&
        ShouldDelete(a, Members(groups[g]), indicators) && a.id == x
    decreases |groups|
  {
    if groups == [] then []
    else
      var init, last := groups[..|groups| - 1], groups[|groups| - 1];
      assert forall g :: 0 <= g < |init| ==> groups[g] == init[g];
      ExpectedDeletions(init, indicators) + DeletableIds(Members(last), Members(last), indicators)
  }

  lemma {:induction false} NothingDeletable(candidates: seq<Asset>, group: seq<Asset>, indicators: seq<string>)
    requires forall a :: a in candidates ==> !ShouldDelete(a, group, indicators)
    ensures DeletableIds(candidates, group, indicators) == []
  {
    if candidates != [] {
      NothingDeletable(candidates[..|candidates| - 1], group, indicators);
    }
  }

  /** Only WhatsApp assets are deletable, so the candidates may be narrowed
      to the WhatsApp part. */
  lemma {:induction false} DeletableAmongWhatsApp(candidates: seq<Asset>, group: seq<Asset>, indicators: seq<string>)
    ensures DeletableIds(candidates, group, indicators)
         == DeletableIds(Partition(candidates, indicators).0, group, indicators)
    decreases |candidates|
  {
    if candidates != [] {
      var init, last := candidates[..|candidates| - 1], candidates[|candidates| - 1];
      DeletableAmongWhatsApp(init, group, indicators);
      var wa := Partition(init, indicators).0;
      if IsWhatsAppAsset(last, indicators) {
        assert Partition(candidates, indicators).0 == wa + [last];
        assert (wa + [last])[..|wa|] == wa;
      }
    }
  }

  /** Deciding the WhatsApp assets of a qualifying group selects exactly the
      deletable ones. */
  lemma {:induction false} DecideAllSelectsDeletable(whatsapp: seq<Asset>, originals: seq<Asset>,
                                                    group: seq<Asset>, indicators: seq<string>)
    requires DecideAll(whatsapp, originals).Ok?
    requires forall a :: a in whatsapp ==>
      (ShouldDelete(a, group, indicators) <==> exists j :: 0 <= j < |originals| && FileSize(originals[j]) > FileSize(a))
    ensures SelectedIds(DecideAll(whatsapp, originals).value) == DeletableIds(whatsapp, group, indicators)
    decreases |whatsapp|
  {
    if whatsapp != [] {
      var init, last := whatsapp[..|whatsapp| - 1], whatsapp[|whatsapp| - 1];
      assert last in whatsapp;
      assert forall a :: a in init ==> a in whatsapp;
      DecideAllSelectsDeletable(init, originals, group, indicators);
      DecideSelectsIffLargerOriginal(last, originals);
      SelectedIdsAppend(DecideAll(init, originals).value, Decide(last, originals).value);
    }
  }

  /** A larger non-WhatsApp peer is a larger asset in the non-WhatsApp part. */
  lemma LargerOriginalAmongOthers(a: Asset, assets: seq<Asset>, indicators: seq<string>)
    ensures HasLargerOriginal(a, assets, indicators) <==>
      exists j :: 0 <= j < |Partition(assets, indicators).1| &&
        FileSize(Partition(assets, indicators).1[j]) > FileSize(a)
  {
    var others := Partition(assets, indicators).1;
    if HasLargerOriginal(a, assets, indicators) {
      var p :| p in assets && !IsWhatsAppAsset(p, indicators) && FileSize(p) > FileSize(a);
      assert p in others;
      var j :| 0 <= j < |others| && others[j] == p;
      assert FileSize(others[j]) > FileSize(a);
    } else {
      forall j | 0 <= j < |others|
        ensures FileSize(others[j]) <= FileSize(a)
      {
        assert others[j] in others;
      }
    }
  }

  /** Per group, the selector picks exactly the deletable assets, in order. */
  lemma GroupSelectsDeletable(g: DuplicateGroup, indicators: seq<string>)
    requires GroupDecisions(g, indicators).Ok?
    ensures SelectedIds(GroupDecisions(g, indicators).value)
         == DeletableIds(Members(g), Members(g), indicators)
  {
    var assets := Members(g);
    if |assets| < 2 {
      NothingDeletable(assets, assets, indicators);
    } else {
      var (whatsapp, others) := Partition(assets, indicators);
      if whatsapp == [] {
        NothingDeletable(assets, assets, indicators);
      } else if others == [] {
        NothingDeletable(assets, assets, indicators);
      } else {
        DeletableAmongWhatsApp(assets, assets, indicators);
        forall a | a in whatsapp
          ensures ShouldDelete(a, assets, indicators) <==>
                  exists j :: 0 <= j < |others| && FileSize(others[j]) > FileSize(a)
        {
          LargerOriginalAmongOthers(a, assets, indicators);
        }
        DecideAllSelectsDeletable(whatsapp, others, assets, indicators);
      }
    }
  }

  /** The selector's decisions select exactly the expected deletions, in order. */
  lemma {:induction false} DecisionsSelectExpected(groups: seq<DuplicateGroup>, indicators: seq<string>)
    requires Decisions(groups, indicators).Ok?
    ensures SelectedIds(Decisions(groups, indicators).value) == ExpectedDeletions(groups, indicators)
    decreases |groups|
  {
    if groups != [] {
      var init, last := groups[..|groups| - 1], groups[|groups| - 1];
      DecisionsSelectExpected(init, indicators);
      GroupSelectsDeletable(last, indicators);
      SelectedIdsConcat(Decisions(init, indicators).value, GroupDecisions(last, indicators).value);
    }
  }

  /** Soundness and completeness of the selector: when it returns, it returns
      the ids of exactly those assets that are from WhatsApp, sit in a group
      of at least two assets, and have a strictly larger non-WhatsApp peer
      (a missing size counting as 0), group by group in asset order. */
  lemma SelectionIsExpectedDeletions(groups: seq<DuplicateGroup>, indicators: seq<string>)
    requires SelectForDeletion(groups, indicators).Ok?
    ensures SelectForDeletion(groups, indicators).value == ExpectedDeletions(groups, indicators)
  {
    DecisionsSelectExpected(groups, indicators);
  }

  // ---------------------------------------------------------------------
  // When the selector raises

  /** Every asset carries both the `originalPath` and `originalFileName` keys. */
  predicate FieldsPresent(a: Asset) {
    a.originalPath.Some? && a.originalFileName.Some?
  }

  lemma {:induction false} ScanSucceedsWhenNamed(waSize: nat, originals: seq<Asset>)
    requires forall a :: a in originals ==> a.originalFileName.Some?
    ensures ScanOriginals(waSize, originals).Ok?
    decreases |originals|
  {
    if originals != [] {
      var init := originals[..|originals| - 1];
      assert forall a :: a in init ==> a in originals;
      assert originals[|originals| - 1] in originals;
      ScanSucceedsWhenNamed(waSize, init);
    }
  }

  lemma {:induction false} DecideAllSucceeds(whatsapp: seq<Asset>, originals: seq<Asset>)
    requires forall a :: a in whatsapp ==> FieldsPresent(a)
    requires forall a :: a in originals ==> FieldsPresent(a)
    ensures DecideAll(whatsapp, originals).Ok?
    decreases |whatsapp|
  {
    if whatsapp != [] {
      var init, last := whatsapp[..|whatsapp| - 1], whatsapp[|whatsapp| - 1];
      assert last in whatsapp;
      assert forall a :: a in init ==> a in whatsapp;
      DecideAllSucceeds(init, originals);
      ScanSucceedsWhenNamed(FileSize(last), originals);
    }
  }

  lemma {:induction false} DecisionsSucceed(groups: seq<DuplicateGroup>, indicators: seq<string>)
    requires forall g, a :: 0 <= g < |groups| && a in Members(groups[g]) ==> FieldsPresent(a)
    ensures Decisions(groups, indicators).Ok?
    decreases |groups|
  {
    if groups != [] {
      var init, last := groups[..|groups| - 1], groups[|groups| - 1];
      assert forall g :: 0 <= g < |init| ==> init[g] == groups[g];
      DecisionsSucceed(init, indicators);
      var assets := Members(last);
      if |assets| >= 2 {
        var (whatsapp, others) := Partition(assets, indicators);
        DecideAllSucceeds(whatsapp, others);
      }
    }
  }

  /** The selector raises only when an asset lacks its path or file name: with
      both keys on every asset it returns the expected deletions. */
  lemma SelectionSucceedsWhenFieldsPresent(groups: seq<DuplicateGroup>, indicators: seq<string>)
    requires forall g, a :: 0 <= g < |groups| && a in Members(groups[g]) ==> FieldsPresent(a)
    ensures SelectForDeletion(groups, indicators) == Ok(ExpectedDeletions(groups, indicators))
  {
    DecisionsSucceed(groups, indicators);
    DecisionsSelectExpected(groups, indicators);
  }

  // ---------------------------------------------------------------------
  // Groups that contribute nothing, and the size of the output

  /** Partitioning one more asset appends it to its part. */
  lemma PartitionSnoc(init: seq<Asset>, last: Asset, indicators: seq<string>)
    ensures Partition(init + [last], indicators)
         == if IsWhatsAppAsset(last, indicators)
            then (Partition(init, indicators).0 + [last], Partition(init, indicators).1)
            else (Partition(init, indicators).0, Partition(init, indicators).1 + [last])
  {
    assert (init + [last])[..|init|] == init;
  }

  /** One more WhatsApp asset keeps an all-WhatsApp partition. */
  lemma PartitionExtendsWhatsApp(init: seq<Asset>, last: Asset, indicators: seq<string>)
    requires Partition(init, indicators) == (init, [])
    requires IsWhatsAppAsset(last, indicators)
    ensures Partition(init + [last], indicators) == (init + [last], [])
  {
    PartitionSnoc(init, last, indicators);
  }

  /** One more non-WhatsApp asset keeps a WhatsApp-free partition. */
  lemma PartitionExtendsOthers(init: seq<Asset>, last: Asset, indicators: seq<string>)
    requires Partition(init, indicators) == ([], init)
    requires !IsWhatsAppAsset(last, indicators)
    ensures Partition(init + [last], indicators) == ([], init + [last])
  {
    PartitionSnoc(init, last, indicators);
  }

  lemma {:induction false} PartitionAllWhatsApp(assets: seq<Asset>, indicators: seq<string>)
    requires forall i :: 0 <= i < |assets| ==> IsWhatsAppAsset(assets[i], indicators)
    ensures Partition(assets, indicators) == (assets, [])
    decreases |assets|
  {
    if assets != [] {
      var init, last := assets[..|assets| - 1], assets[|assets| - 1];
      PartitionAllWhatsApp(init, indicators);
      PartitionExtendsWhatsApp(init, last, indicators);
      assert init + [last] == assets;
    }
  }

  lemma {:induction false} PartitionNoWhatsApp(assets: seq<Asset>, indicators: seq<string>)
    requires forall i :: 0 <= i < |assets| ==> !IsWhatsAppAsset(assets[i], indicators)
    ensures Partition(assets, indicators) == ([], assets)
    decreases |assets|
  {
    if assets != [] {
      var init, last := assets[..|assets| - 1], assets[|assets| - 1];
      PartitionNoWhatsApp(init, indicators);
      PartitionExtendsOthers(init, last, indicators);
      assert init + [last] == assets;
    }
  }

  /** A group of fewer than two assets, or one without a WhatsApp asset or
      without a non-WhatsApp asset, contributes no decision and no id. */
  lemma UnqualifiedGroupContributesNothing(g: DuplicateGroup, indicators: seq<string>)
    requires |Members(g)| < 2
          || (forall a :: a in Members(g) ==> IsWhatsAppAsset(a, indicators))
          || (forall a :: a in Members(g) ==> !IsWhatsAppAsset(a, indicators))
    ensures GroupDecisions(g, indicators) == Ok([])
    ensures DeletableIds(Members(g), Members(g), indicators) == []
  {
    var assets := Members(g);
    if forall a :: a in assets ==> IsWhatsAppAsset(a, indicators) {
      PartitionAllWhatsApp(assets, indicators);
    } else if forall a :: a in assets ==> !IsWhatsAppAsset(a, indicators) {
      PartitionNoWhatsApp(assets, indicators);
    }
    NothingDeletable(assets, assets, indicators);
  }

  /** The number of WhatsApp assets over all groups. */
  function WhatsAppCount(groups: seq<DuplicateGroup>, indicators: seq<string>): nat
    decreases |groups|
  {
    if groups == [] then 0
    else
      WhatsAppCount(groups[..|groups| - 1], indicators) +
      |Partition(Members(groups[|groups| - 1]), indicators).0|
  }

  /** The selector returns at most one id per WhatsApp asset. */
  lemma {:induction false} ExpectedDeletionsBounded(groups: seq<DuplicateGroup>, indicators: seq<string>)
    ensures |ExpectedDeletions(groups, indicators)| <= WhatsAppCount(groups, indicators)
    decreases |groups|
  {
    if groups != [] {
      var last := groups[|groups| - 1];
      ExpectedDeletionsBounded(groups[..|groups| - 1], indicators);
      DeletableAmongWhatsApp(Members(last), Members(last), indicators);
    }
  }

  // ---------------------------------------------------------------------
  // Two-asset groups

  lemma PairDeletable(x: Asset, y: Asset, group: seq<Asset>, indicators: seq<string>)
    ensures DeletableIds([x, y], group, indicators)
         == (if ShouldDelete(x, group, indicators) then [x.id] else []) +
            (if ShouldDelete(y, group, indicators) then [y.id] else [])
  {
    assert [x, y][..1] == [x] && [x][..0] == [];
  }

  /** In a pair of a WhatsApp asset and a non-WhatsApp asset, in either
      order, only the WhatsApp one can be deleted, and it is exactly when the
      other is strictly larger. */
  lemma PairShouldDelete(wa: Asset, original: Asset, indicators: seq<string>)
    requires IsWhatsAppAsset(wa, indicators) && !IsWhatsAppAsset(original, indicators)
    ensures ShouldDelete(wa, [wa, original], indicators) <==> FileSize(original) > FileSize(wa)
    ensures ShouldDelete(wa, [original, wa], indicators) <==> FileSize(original) > FileSize(wa)
    ensures !ShouldDelete(original, [wa, original], indicators)
    ensures !ShouldDelete(original, [original, wa], indicators)
  {
    assert original in [wa, original] && original in [original, wa];
  }

  lemma SingleGroupExpected(g: DuplicateGroup, indicators: seq<string>)
    ensures ExpectedDeletions([g], indicators) == DeletableIds(Members(g), Members(g), indicators)
  {
    assert [g][..0] == [];
  }

  lemma TwoGroupsExpected(g1: DuplicateGroup, g2: DuplicateGroup, indicators: seq<string>)
    ensures ExpectedDeletions([g1, g2], indicators)
         == DeletableIds(Members(g1), Members(g1), indicators) + DeletableIds(Members(g2), Members(g2), indicators)
  {
    assert [g1, g2][..1] == [g1];
    SingleGroupExpected(g1, indicators);
  }

  /** A group of one WhatsApp asset and one other asset, both with their
      keys: the WhatsApp asset is selected exactly when the other one is
      strictly larger (so 100 against 200 selects, 100 against 50 and equal
      sizes do not). */
  lemma TwoAssetGroup(wa: Asset, original: Asset, indicators: seq<string>)
    requires IsWhatsAppAsset(wa, indicators) && !IsWhatsAppAsset(original, indicators)
    requires FieldsPresent(wa) && FieldsPresent(original)
    ensures SelectForDeletion([DuplicateGroup(Some([wa, original]))], indicators)
         == Ok(if FileSize(original) > FileSize(wa) then [wa.id] else [])
  {
    var g := DuplicateGroup(Some([wa, original]));
    assert Members(g) == [wa, original];
    assert forall i, a :: 0 <= i < |[g]| && a in Members([g][i]) ==> FieldsPresent(a);
    SelectionSucceedsWhenFieldsPresent([g], indicators);
    SingleGroupExpected(g, indicators);
    PairDeletable(wa, original, [wa, original], indicators);
    PairShouldDelete(wa, original, indicators);
    var selected: seq<AssetId> := if FileSize(original) > FileSize(wa) then [wa.id] else [];
    assert selected + [] == selected;
    assert DeletableIds([wa, original], [wa, original], indicators) == selected;
  }

  /** The selector does not remove repeated ids: an asset listed in two
      groups is returned twice. */
  lemma RepeatedAssetSelectedTwice(wa: Asset, original: Asset, indicators: seq<string>)
    requires IsWhatsAppAsset(wa, indicators) && !IsWhatsAppAsset(original, indicators)
    requires FieldsPresent(wa) && FieldsPresent(original)
    requires FileSize(original) > FileSize(wa)
    ensures SelectForDeletion([DuplicateGroup(Some([wa, original])), DuplicateGroup(Some([original, wa]))], indicators)
         == Ok([wa.id, wa.id])
  {
    var g1, g2 := DuplicateGroup(Some([wa, original])), DuplicateGroup(Some([original, wa]));
    assert Members(g1) == [wa, original] && Members(g2) == [original, wa];
    assert forall i, a :: 0 <= i < |[g1, g2]| && a in Members([g1, g2][i]) ==> FieldsPresent(a);
    SelectionSucceedsWhenFieldsPresent([g1, g2], indicators);
    TwoGroupsExpected(g1, g2, indicators);
    PairDeletable(wa, original, [wa, original], indicators);
    PairDeletable(original, wa, [original, wa], indicators);
    PairShouldDelete(wa, original, indicators);
    assert DeletableIds([wa, original], [wa, original], indicators) == [wa.id];
    assert DeletableIds([original, wa], [original, wa], indicators) == [wa.id];
    assert [wa.id] + [wa.id] == [wa.id, wa.id];
  }
}
