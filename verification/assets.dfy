/** The records the cleaner reads from the photo service: assets and the
    duplicate groups that hold them. */
module Assets {
  import opened Wrappers

  /** The service's opaque asset identifier. */
  type AssetId = string

  /** One stored media item, as the duplicates endpoint describes it.
      `originalPath` and `originalFileName` may be missing from the JSON
      object; `fileSizeInByte` is `None` when either the `exifInfo` block or
      its `fileSizeInByte` field is missing. */
  datatype Asset = Asset(
    id: AssetId,
    originalPath: Option<string>,
    originalFileName: Option<string>,
    fileSizeInByte: Option<nat>)

  /** A group of assets the service judged to be duplicates of one another;
      `assets` is `None` when the group object has no `assets` key. */
  datatype DuplicateGroup = DuplicateGroup(assets: Option<seq<Asset>>)

  /** `duplicate_group.get('assets', [])`: the group's assets, or none when
      the key is missing. */
  function Members(g: DuplicateGroup): (members: seq<Asset>)
    ensures g.assets.None? ==> members == []
    ensures g.assets.Some? ==> members == g.assets.value
  {
    g.assets.GetOr([])
  }

  /** `asset.get('exifInfo', {}).get('fileSizeInByte', 0)`: the recorded
      size, or 0 when it is missing. */
  function FileSize(a: Asset): (size: nat)
    ensures a.fileSizeInByte.None? ==> size == 0
    ensures a.fileSizeInByte.Some? ==> size == a.fileSizeInByte.value
  {
    a.fileSizeInByte.GetOr(0)
  }
}
