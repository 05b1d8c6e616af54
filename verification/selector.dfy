/** The deletion-candidate selector: in every duplicate group that holds both
    WhatsApp and other assets, a WhatsApp asset is chosen for deletion when
    some other asset of the group has a strictly larger file size. */
module Selector {
  import opened Wrappers
  import opened Assets
  import opened Classifier

  /** The exception a missing JSON key raises (`asset['originalFileName']`). */
  datatype Failure = KeyError(key: string)

  /** The selector only ever reads the `originalFileName` and `originalPath`
      keys without a default. */
  predicate IsMissingKey(e: Failure) {
    e == KeyError("originalFileName") || e == KeyError("originalPath")
  }

  /** Splits the assets of a group into the WhatsApp ones and the others,
      each part in group order. */
  function Partition(assets: seq<Asset>, indicators: seq<string>): (parts: (seq<Asset>, seq<Asset>))
    ensures forall a :: a in parts.0 <==> a in assets && IsWhatsAppAsset(a, indicators)
    ensures forall a :: a in parts.1 <==> a in assets && !IsWhatsAppAsset(a, indicators)
    ensures multiset(parts.0) + multiset(parts.1) == multiset(assets)
    ensures |parts.0| + |parts.1| == |assets|
    decreases |assets|
  {
    if assets == [] then ([], [])
    else
      var last := assets[|assets| - 1];
      assert assets == assets[..|assets| - 1] + [last];
      assert multiset(assets) == multiset(assets[..|assets| - 1]) + multiset{last};
      var (whatsapp, others) := Partition(assets[..|assets| - 1], indicators);
      if IsWhatsAppAsset(last, indicators) then (whatsapp + [last], others)
      else (whatsapp, others + [last])
  }

  /** The state of the scan over the non-WhatsApp assets for one WhatsApp
      asset: whether a larger original was seen, and the largest one so far. */
  datatype Scan = Scan(hasLargerOriginal: bool, largestOriginalSize: nat, largestOriginalName: string)

  const NothingLarger := Scan(false, 0, "")

  /** One step of the scan: an original larger than the WhatsApp copy sets
      `hasLargerOriginal`; one larger than every original seen so far becomes
      the largest, which reads its `originalFileName` key. */
  function ScanStep(waSize: nat, s: Scan, original: Asset): (r: Result<Scan, Failure>)
    ensures r.Err? <==> FileSize(original) > waSize && FileSize(original) > s.largestOriginalSize
                        && original.originalFileName.None?
    ensures r.Err? ==> r.error == KeyError("originalFileName")
    ensures r.Ok? ==> (r.value.hasLargerOriginal <==> s.hasLargerOriginal || FileSize(original) > waSize)
    ensures r.Ok? ==> r.value.largestOriginalSize >= s.largestOriginalSize
  {
    var size := FileSize(original);
    if size <= waSize then Ok(s)
    else if size <= s.largestOriginalSize then Ok(s.(hasLargerOriginal := true))
    else match original.originalFileName
      case None => Err(KeyError("originalFileName"))
      case Some(name) => Ok(Scan(true, size, name))
  }

  /** The scan over `originals`, left to right; a KeyError ends it. */
  function ScanOriginals(waSize: nat, originals: seq<Asset>): (r: Result<Scan, Failure>)
    ensures r.Err? ==> r.error == KeyError("originalFileName")
    ensures r.Ok? ==> (r.value.hasLargerOriginal <==> r.value.largestOriginalSize > waSize)
    ensures r.Ok? && !r.value.hasLargerOriginal ==> r.value == NothingLarger
    decreases |originals|
  {
    if originals == [] then Ok(NothingLarger)
    else match ScanOriginals(waSize, originals[..|originals| - 1])
      case Err(e) => Err(e)
      case Ok(s) => ScanStep(waSize, s, originals[|originals| - 1])
  }

  /** The outcome for one WhatsApp asset of a group that qualifies: selected,
      with the size and name of the largest larger original it is kept for,
      or skipped because no original is larger. */
  datatype Decision =
    | Selected(id: AssetId, size: nat, keptSize: nat, keptName: string)
    | Skipped(id: AssetId, size: nat)

  /** Scans the originals for one WhatsApp asset, then reports it, which reads
      its `originalFileName` key and, when selected, its `originalPath` key. */
  function Decide(wa: Asset, originals: seq<Asset>): (r: Result<Decision, Failure>)
    ensures r.Ok? ==> r.value.id == wa.id && r.value.size == FileSize(wa)
    ensures r.Ok? && r.value.Selected? ==> r.value.keptSize > r.value.size
    ensures r.Err? ==> IsMissingKey(r.error)
  {
    match ScanOriginals(FileSize(wa), originals)
    case Err(e) => Err(e)
    case Ok(s) =>
      if wa.originalFileName.None? then Err(KeyError("originalFileName"))
      else if !s.hasLargerOriginal then Ok(Skipped(wa.id, FileSize(wa)))
      else if wa.originalPath.None? then Err(KeyError("originalPath"))
      else Ok(Selected(wa.id, FileSize(wa), s.largestOriginalSize, s.largestOriginalName))
  }

  /** The decisions for the WhatsApp assets of a group, in order. */
  function DecideAll(whatsapp: seq<Asset>, originals: seq<Asset>): (r: Result<seq<Decision>, Failure>)
    ensures r.Ok? ==> |r.value| == |whatsapp|
    ensures r.Ok? ==> forall i :: 0 <= i < |whatsapp| ==> r.value[i].id == whatsapp[i].id
    ensures r.Err? ==> IsMissingKey(r.error)
    decreases |whatsapp|
  {
    if whatsapp == [] then Ok([])
    else match DecideAll(whatsapp[..|whatsapp| - 1], originals)
      case Err(e) => Err(e)
      case Ok(ds) =>
        match Decide(whatsapp[|whatsapp| - 1], originals)
        case Err(e) => Err(e)
        case Ok(d) => Ok(ds + [d])
  }

  /** The decisions for one group: none for a group of fewer than two assets
      or one that lacks WhatsApp assets or other assets. */
  function GroupDecisions(g: DuplicateGroup, indicators: seq<string>): (r: Result<seq<Decision>, Failure>)
    ensures |Members(g)| < 2 ==> r == Ok([])
    ensures r.Ok? ==> |r.value| <= |Members(g)|
    ensures r.Err? ==> IsMissingKey(r.error)
  {
    var assets := Members(g);
    if |assets| < 2 then Ok([])
    else
      var (whatsapp, others) := Partition(assets, indicators);
      if whatsapp == [] || others == [] then Ok([])
      else DecideAll(whatsapp, others)
  }

  /** The decisions for all groups, group after group. */
  function Decisions(groups: seq<DuplicateGroup>, indicators: seq<string>): (r: Result<seq<Decision>, Failure>)
    ensures r.Err? ==> IsMissingKey(r.error)
    decreases |groups|
  {
    if groups == [] then Ok([])
    else match Decisions(groups[..|groups| - 1], indicators)
      case Err(e) => Err(e)
      case Ok(ds) =>
        match GroupDecisions(groups[|groups| - 1], indicators)
        case Err(e) => Err(e)
        case Ok(gd) => Ok(ds + gd)
  }

  /** The ids of the selected assets, in decision order. */
  function SelectedIds(ds: seq<Decision>): (ids: seq<AssetId>)
    ensures |ids| <= |ds|
    ensures forall x :: x in ids <==> exists i :: 0 <= i < |ds| && ds[i].Selected? && ds[i].id == x
    decreases |ds|
  {
    if ds == [] then []
    else SelectedIds(ds[..|ds| - 1]) + (if ds[|ds| - 1].Selected? then [ds[|ds| - 1].id] else [])
  }

  /** What `find_whatsapp_duplicates_to_delete` returns or raises. */
  function SelectForDeletion(groups: seq<DuplicateGroup>, indicators: seq<string>): (r: Result<seq<AssetId>, Failure>)
    ensures r.Err? ==> IsMissingKey(r.error)
  {
    match Decisions(groups, indicators)
    case Err(e) => Err(e)
    case Ok(ds) => Ok(SelectedIds(ds))
  }

  lemma {:induction false} ScanFailureStops(waSize: nat, originals: seq<Asset>, k: nat)
    requires k <= |originals| && ScanOriginals(waSize, originals[..k]).Err?
    ensures ScanOriginals(waSize, originals) == ScanOriginals(waSize, originals[..k])
    decreases |originals|
  {
    if k < |originals| {
      var init := originals[..|originals| - 1];
      assert init[..k] == originals[..k];
      ScanFailureStops(waSize, init, k);
    } else {
      assert originals[..k] == originals;
    }
  }

  lemma {:induction false} DecideAllFailureStops(whatsapp: seq<Asset>, originals: seq<Asset>, k: nat)
    requires k <= |whatsapp| && DecideAll(whatsapp[..k], originals).Err?
    ensures DecideAll(whatsapp, originals) == DecideAll(whatsapp[..k], originals)
    decreases |whatsapp|
  {
    if k < |whatsapp| {
      var init := whatsapp[..|whatsapp| - 1];
      assert init[..k] == whatsapp[..k];
      DecideAllFailureStops(init, originals, k);
    } else {
      assert whatsapp[..k] == whatsapp;
    }
  }

  lemma {:induction false} DecisionsFailureStops(groups: seq<DuplicateGroup>, indicators: seq<string>, k: nat)
    requires k <= |groups| && Decisions(groups[..k], indicators).Err?
    ensures Decisions(groups, indicators) == Decisions(groups[..k], indicators)
    decreases |groups|
  {
    if k < |groups| {
      var init := groups[..|groups| - 1];
      assert init[..k] == groups[..k];
      DecisionsFailureStops(init, indicators, k);
    } else {
      assert groups[..k] == groups;
    }
  }

  /** A KeyError in the `k`-th group is the outcome of the whole selection. */
  lemma GroupFailureFailsSelection(groups: seq<DuplicateGroup>, indicators: seq<string>, k: nat,
                                   decided: seq<Decision>, e: Failure)
    requires k < |groups|
    requires Decisions(groups[..k], indicators) == Ok(decided)
    requires GroupDecisions(groups[k], indicators) == Err(e)
    ensures SelectForDeletion(groups, indicators) == Err(e)
  {
    assert groups[..k + 1][..k] == groups[..k];
    DecisionsFailureStops(groups, indicators, k + 1);
  }

  lemma SelectedIdsAppend(ds: seq<Decision>, d: Decision)
    ensures SelectedIds(ds + [d]) == SelectedIds(ds) + (if d.Selected? then [d.id] else [])
  {
    assert (ds + [d])[..|ds|] == ds;
  }

  lemma {:induction false} SelectedIdsConcat(ds: seq<Decision>, more: seq<Decision>)
    ensures SelectedIds(ds + more) == SelectedIds(ds) + SelectedIds(more)
    decreases |more|
  {
    if more != [] {
      var init, last := more[..|more| - 1], more[|more| - 1];
      assert more == init + [last];
      assert ds + more == (ds + init) + [last];
      SelectedIdsConcat(ds, init);
      SelectedIdsAppend(ds + init, last);
      SelectedIdsAppend(init, last);
    } else {
      assert ds + more == ds;
    }
  }

  /** The loop of `find_whatsapp_duplicates_to_delete` that splits a group
      into its WhatsApp and other assets. */
  method PartitionGroup(assets: seq<Asset>, indicators: seq<string>)
    returns (whatsappAssets: seq<Asset>, nonWhatsappAssets: seq<Asset>)
    ensures (whatsappAssets, nonWhatsappAssets) == Partition(assets, indicators)
  {
    whatsappAssets, nonWhatsappAssets := [], [];
    for j := 0 to |assets|
      invariant (whatsappAssets, nonWhatsappAssets) == Partition(assets[..j], indicators)
    {
      assert assets[..j + 1][..j] == assets[..j];
      if IsWhatsAppAsset(assets[j], indicators) {
        whatsappAssets := whatsappAssets + [assets[j]];
      } else {
        nonWhatsappAssets := nonWhatsappAssets + [assets[j]];
      }
    }
    assert assets[..|assets|] == assets;
  }

  /** The innermost loop of `find_whatsapp_duplicates_to_delete`: looks for
      an original larger than the WhatsApp copy and tracks the largest. */
  method ScanForLargerOriginal(waFileSize: nat, nonWhatsappAssets: seq<Asset>)
    returns (result: Result<Scan, Failure>)
    ensures result == ScanOriginals(waFileSize, nonWhatsappAssets)
  {
    var hasLargerOriginal := false;
    var largestOriginalSize: nat := 0;
    var largestOriginalName := "";
    for o := 0 to |nonWhatsappAssets|
      invariant ScanOriginals(waFileSize, nonWhatsappAssets[..o])
             == Ok(Scan(hasLargerOriginal, largestOriginalSize, largestOriginalName))
    {
      assert nonWhatsappAssets[..o + 1][..o] == nonWhatsappAssets[..o];
      var origAsset := nonWhatsappAssets[o];
      var origFileSize := FileSize(origAsset);
      if origFileSize > waFileSize {
        hasLargerOriginal := true;
        if origFileSize > largestOriginalSize {
          largestOriginalSize := origFileSize;
          if origAsset.originalFileName.None? {
            ScanFailureStops(waFileSize, nonWhatsappAssets, o + 1);
            return Err(KeyError("originalFileName"));
          }
          largestOriginalName := origAsset.originalFileName.value;
        }
      }
    }
    assert nonWhatsappAssets[..|nonWhatsappAssets|] == nonWhatsappAssets;
    result := Ok(Scan(hasLargerOriginal, largestOriginalSize, largestOriginalName));
  }

  /** The loop of `find_whatsapp_duplicates_to_delete` over the WhatsApp
      assets of one qualifying group: the ids it appends, or the KeyError it
      raises. */
  method SelectInGroup(whatsappAssets: seq<Asset>, nonWhatsappAssets: seq<Asset>)
    returns (result: Result<seq<AssetId>, Failure>)
    ensures result == match DecideAll(whatsappAssets, nonWhatsappAssets)
      case Err(e) => Err(e)
      case Ok(ds) => Ok(SelectedIds(ds))
  {
    var assetsToDelete: seq<AssetId> := [];
    ghost var decided: seq<Decision> := [];
    for w := 0 to |whatsappAssets|
      invariant DecideAll(whatsappAssets[..w], nonWhatsappAssets) == Ok(decided)
      invariant assetsToDelete == SelectedIds(decided)
    {
      assert whatsappAssets[..w + 1][..w] == whatsappAssets[..w];
      var waAsset := whatsappAssets[w];
      var waFileSize := FileSize(waAsset);
      var scan := ScanForLargerOriginal(waFileSize, nonWhatsappAssets);
      if scan.Err? {
        DecideAllFailureStops(whatsappAssets, nonWhatsappAssets, w + 1);
        return Err(scan.error);
      }
      var hasLargerOriginal := scan.value.hasLargerOriginal;
      if hasLargerOriginal {
        assetsToDelete := assetsToDelete + [waAsset.id];
      }
      if waAsset.originalFileName.None? {
        DecideAllFailureStops(whatsappAssets, nonWhatsappAssets, w + 1);
        return Err(KeyError("originalFileName"));
      }
      if hasLargerOriginal && waAsset.originalPath.None? {
        DecideAllFailureStops(whatsappAssets, nonWhatsappAssets, w + 1);
        return Err(KeyError("originalPath"));
      }
      var decision := if hasLargerOriginal
        then Selected(waAsset.id, waFileSize, scan.value.largestOriginalSize, scan.value.largestOriginalName)
        else Skipped(waAsset.id, waFileSize);
      SelectedIdsAppend(decided, decision);
      decided := decided + [decision];
    }
    assert whatsappAssets[..|whatsappAssets|] == whatsappAssets;
    result := Ok(assetsToDelete);
  }

  /** `find_whatsapp_duplicates_to_delete`, proved to return, or raise, what
      `SelectForDeletion` specifies. */
  method FindWhatsAppDuplicatesToDelete(duplicates: seq<DuplicateGroup>, indicators: seq<string>)
    returns (result: Result<seq<AssetId>, Failure>)
    ensures result == SelectForDeletion(duplicates, indicators)
  {
    var assetsToDelete: seq<AssetId> := [];
    ghost var decided: seq<Decision> := [];
    for g := 0 to |duplicates|
      invariant Decisions(duplicates[..g], indicators) == Ok(decided)
      invariant assetsToDelete == SelectedIds(decided)
    {
      assert duplicates[..g + 1][..g] == duplicates[..g];
      var assets := Members(duplicates[g]);
      ghost var groupDecided: seq<Decision> := [];
      if |assets| >= 2 {
        var whatsappAssets, nonWhatsappAssets := PartitionGroup(assets, indicators);
        if whatsappAssets != [] && nonWhatsappAssets != [] {
          var selected := SelectInGroup(whatsappAssets, nonWhatsappAssets);
          if selected.Err? {
            GroupFailureFailsSelection(duplicates, indicators, g, decided, selected.error);
            return Err(selected.error);
          }
          groupDecided := DecideAll(whatsappAssets, nonWhatsappAssets).value;
          SelectedIdsConcat(decided, groupDecided);
          assetsToDelete := assetsToDelete + selected.value;
        }
      }
      assert decided + [] == decided;
      decided := decided + groupDecided;
    }
    assert duplicates[..|duplicates|] == duplicates;
    result := Ok(assetsToDelete);
  }
}
