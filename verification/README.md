# Immich WhatsApp duplicate cleaner, modelled in Dafny

The cleaner reads the duplicate groups an Immich server reports. It picks,
in every group, the copies that WhatsApp saved (recognised by their path or
file name) when a strictly larger non-WhatsApp copy of the same picture
exists. It then deletes the picked assets through the server's API, in
batches of 50. It stops at the first batch the server refuses. A request
that raises (a timeout, a connection error) is not caught and ends the run
before the final count is reported.

The model covers the decision core of `delete_whatsapp_duplicates.py`:

- `wrappers.dfy`: `Option` and `Result`.
- `assets.dfy`: an asset, with the three JSON keys that may be missing as `Option`s, and a duplicate group.
- `classifier.dfy`: `is_whatsapp_asset` as a predicate over an indicator list, with ASCII lower-casing and Python's substring test.
- `selector.dfy`: `find_whatsapp_duplicates_to_delete`.
  - It is written as imperative methods with the source's loops and variables.
  - Each method is proved equal to a left fold over the groups, assets and originals.
  - A missing `originalFileName` or `originalPath` key is a `KeyError` result, because the code raises there.
- `selector_properties.dfy`: what the selector promises.
  - An independent definition of the ids that should be deleted, and the theorem that the selector returns exactly those, in order.
  - The exact condition under which the scan raises.
  - The kept original's size and name.
  - The bound on the output's length, and groups that contribute nothing.
  - Worked examples.
- `immich_api.dfy`: the branch structure of `get_asset_duplicates` and `_is_cache_valid`, and `delete_assets` over what its request meets: a status code, or an exception.
- `batch_deletion.dfy`: the batch loop of `main` as a method proved against a specification of the batches and of the first failing one. The method reports whether the run reaches its final count or ends with the exception.

What each DELETE request meets is an input sequence (one `Status(code)` or `Raised` per batch that may be sent). The cache's existence and age, and the API's outcome, are inputs of the fetch decision.

Every function of the model is deterministic by construction. Each method's ensures determine its results, so running the selector twice on the same groups yields the same list in the same order.

Three facts of the code are worth stating up front. The model follows the code in each:

- The selector does not remove repeated ids. An asset listed in two groups is selected twice (`SelectorProperties.RepeatedAssetSelectedTwice`).
- The selector indexes `asset['originalFileName']` and `asset['originalPath']` directly, so a missing key raises `KeyError`, and nothing in `main` catches it. The model returns `Err(KeyError(key))` in exactly those cases: the folds `Selector.ScanStep` and `Selector.Decide` raise only where the code reads a missing key, `SelectorProperties.ScanFailsIff` gives the scan's exact condition, and `SelectorProperties.SelectionSucceedsWhenFieldsPresent` shows that with every key present nothing is raised.
- The docstring of `find_whatsapp_duplicates_to_delete` (delete_whatsapp_duplicates.py:164-168) says a group's WhatsApp version is marked whenever the group also holds a non-WhatsApp version. The code marks it only when some non-WhatsApp version is strictly larger, as the module docstring (delete_whatsapp_duplicates.py:2-12) promises (`SelectorProperties.ShouldDelete`).

## Model

| member | source | states |
|---|---|---|
| Assets.Members | delete_whatsapp_duplicates.py:172 | a group's assets, or no assets when the group has no `assets` key |
| Assets.FileSize | delete_whatsapp_duplicates.py:189-197 | an asset's size, 0 when `exifInfo` or its `fileSizeInByte` is missing |
| Classifier.WhatsAppIndicators | delete_whatsapp_duplicates.py:150-156 | the active indicators: "whatsapp" and "/sent/" |
| Classifier.BroaderIndicators | delete_whatsapp_duplicates.py:150-156 | the indicator list with the commented-out entries "wa0", "img-" and "-wa0" restored, in source order |
| Classifier.Lower | delete_whatsapp_duplicates.py:146-147 | lower-casing keeps the length of the string |
| Classifier.LowerAt | delete_whatsapp_duplicates.py:146-147 | every character is mapped by ASCII lower-casing, and no upper-case letter remains |
| Classifier.LowerIdempotent | delete_whatsapp_duplicates.py:158 | lower-casing an already lower-cased string changes nothing |
| Classifier.LowerAppend | delete_whatsapp_duplicates.py:158 | lower-casing distributes over concatenation |
| Classifier.ContainsIffOccurs | delete_whatsapp_duplicates.py:160 | Python's `indicator in s` holds exactly when the indicator occurs at some index of `s` |
| Classifier.Contains | delete_whatsapp_duplicates.py:160 | Python's `needle in haystack`: a match needs a haystack at least as long as the needle, holding every character of the needle |
| Classifier.ScanString | delete_whatsapp_duplicates.py:146-158 | the scanned string is the lower-cased path, one space and the lower-cased file name (`Joined`), each `""` when missing; the final lower-casing changes nothing |
| Classifier.Joined | delete_whatsapp_duplicates.py:146-158 | the lower-cased path, one space and the lower-cased file name |
| Classifier.IsWhatsAppAsset | delete_whatsapp_duplicates.py:144-160 | an asset is from WhatsApp iff some indicator occurs in its scanned string; `WhatsAppIffIndicatorOccurs` states it for the cleaner's indicators |
| Classifier.WhatsAppIffIndicatorOccurs | delete_whatsapp_duplicates.py:144-160 | with the cleaner's indicators, an asset is from WhatsApp iff "whatsapp" or "/sent/" occurs in the joined lower-cased fields |
| Classifier.MissingFieldsClassification | delete_whatsapp_duplicates.py:146-160 | an asset with neither field scans " ", so it matches only an indicator "" or " ", and it is never WhatsApp with the cleaner's indicators |
| Classifier.ClassificationIgnoresCase | delete_whatsapp_duplicates.py:146-158 | two assets whose fields agree up to case are classified alike |
| Classifier.IndicatorInPathMatches | delete_whatsapp_duplicates.py:146-160 | a path containing a piece that lower-cases to an indicator makes the asset WhatsApp, whatever else the path and name hold |
| Classifier.WhatsAppImagesFolderExample | delete_whatsapp_duplicates.py:150-160 | a path "/albums/WhatsApp Images/img1.jpg" is classified WhatsApp |
| Classifier.NoIndicatorLettersNotWhatsApp | delete_whatsapp_duplicates.py:150-160 | fields without any 'w' or 'n' in either case are never WhatsApp with the cleaner's indicators |
| Classifier.CameraFileNameLacksIndicatorLetters | delete_whatsapp_duplicates.py:150-156 | the file name "IMG-20230101.jpg" holds no 'w' or 'n' in either case |
| Classifier.CameraExportIsNotWhatsApp | delete_whatsapp_duplicates.py:150-156 | an asset with path "/albums/Camera/IMG-20230101.jpg" and file name "IMG-20230101.jpg" is not WhatsApp with the active indicators |
| Classifier.CameraExportMatchesBroaderSet | delete_whatsapp_duplicates.py:150-156 | the same path is WhatsApp with the broader, commented-out indicator set, through "img-" |
| Selector.IsMissingKey | delete_whatsapp_duplicates.py:196-217 | the only errors the selector raises: `KeyError('originalFileName')` and `KeyError('originalPath')` |
| Selector.Partition | delete_whatsapp_duplicates.py:176-183 | the WhatsApp part holds exactly the group's WhatsApp assets, the other part exactly the rest; together the two parts are the group as a multiset |
| Selector.ScanStep | delete_whatsapp_duplicates.py:196-202 | one original: it raises `KeyError('originalFileName')` iff it is larger than the copy and than the largest so far and has no name; otherwise `has_larger_original` becomes true iff it was or the original is larger than the copy, and the largest size never shrinks |
| Selector.ScanOriginals | delete_whatsapp_duplicates.py:189-202 | the scan raises only `KeyError('originalFileName')`; when it completes, `has_larger_original` holds iff the largest size exceeds the copy's, and otherwise the state is the initial one |
| Selector.Decide | delete_whatsapp_duplicates.py:188-217 | a decision is about its own asset and size, a selected copy is strictly smaller than its kept original, and the only errors are the missing-key ones |
| Selector.DecideAll | delete_whatsapp_duplicates.py:188-217 | one decision per WhatsApp asset, in asset order, or a missing-key error |
| Selector.GroupDecisions | delete_whatsapp_duplicates.py:171-217 | a group of fewer than two assets gives no decision; otherwise at most one per asset, or a missing-key error |
| Selector.Decisions | delete_whatsapp_duplicates.py:169-217 | the decisions of all groups, group after group, or a missing-key error |
| Selector.SelectedIds | delete_whatsapp_duplicates.py:204-205 | an id is returned iff some decision selects the asset with that id, and there are no more ids than decisions |
| Selector.SelectForDeletion | delete_whatsapp_duplicates.py:163-222 | the selector returns the selected ids or raises a missing-key error, and nothing else |
| Selector.PartitionGroup | delete_whatsapp_duplicates.py:176-183 | the appending loop builds exactly the two parts of `Partition`, each in group order |
| Selector.ScanForLargerOriginal | delete_whatsapp_duplicates.py:189-202 | the loop over the originals computes the scan fold, including the `KeyError` on an unnamed new largest original |
| Selector.SelectInGroup | delete_whatsapp_duplicates.py:187-215 | the loop over a group's WhatsApp assets returns the ids of the selected decisions, or the first `KeyError` |
| Selector.FindWhatsAppDuplicatesToDelete | delete_whatsapp_duplicates.py:163-222 | the whole selector returns the selection the group fold defines, or its first `KeyError` |
| Selector.ScanFailureStops | delete_whatsapp_duplicates.py:196-202 | a `KeyError` in the scan ends it: the error on a prefix is the result of the whole scan |
| Selector.DecideAllFailureStops | delete_whatsapp_duplicates.py:188-213 | a `KeyError` on one WhatsApp asset is the result for the whole group |
| Selector.DecisionsFailureStops | delete_whatsapp_duplicates.py:171-213 | a `KeyError` in one group is the result for the whole selection |
| Selector.GroupFailureFailsSelection | delete_whatsapp_duplicates.py:171-213 | a group that raises after error-free groups makes the selection raise the same error |
| Selector.SelectedIdsConcat | delete_whatsapp_duplicates.py:205 | the selected ids of concatenated decision lists are the concatenation of their selected ids |
| SelectorProperties.IsKeptOriginal | delete_whatsapp_duplicates.py:196-202 | the original the cleaner reports as kept: larger than the copy, as large as every larger original, and the first of that size |
| SelectorProperties.ScanFindsLarger | delete_whatsapp_duplicates.py:192-200 | a completed scan reports a larger original iff some original is strictly larger than the copy |
| SelectorProperties.ScanFindsKeptOriginal | delete_whatsapp_duplicates.py:192-202 | when a completed scan reports a larger original, its size and name are those of the kept original (`IsKeptOriginal`) |
| SelectorProperties.IsNewLargest | delete_whatsapp_duplicates.py:198-202 | an original the scan takes as the new largest, whose `originalFileName` it reads: larger than the copy and than every earlier original |
| SelectorProperties.ScanFailsIff | delete_whatsapp_duplicates.py:196-202 | the scan raises exactly when an original it takes as the new largest has no file name |
| SelectorProperties.DecideSelectsIffLargerOriginal | delete_whatsapp_duplicates.py:188-213 | a decision is about its own asset, selects it iff some original is strictly larger, and then reports the kept original, strictly larger than the copy |
| SelectorProperties.HasLargerOriginal | delete_whatsapp_duplicates.py:193-200 | some non-WhatsApp asset of the group is strictly larger |
| SelectorProperties.ShouldDelete | delete_whatsapp_duplicates.py:172-205 | the three conditions for deletion: a group of at least two, a WhatsApp asset, and a strictly larger non-WhatsApp asset in the group |
| SelectorProperties.DeletableIds | delete_whatsapp_duplicates.py:187-205 | reference definition: an id is listed iff its asset is WhatsApp, sits in a group of at least two, and has a strictly larger non-WhatsApp peer |
| SelectorProperties.ExpectedDeletions | delete_whatsapp_duplicates.py:169-205 | reference definition over all groups, with the same iff, group after group |
| SelectorProperties.DeletableAmongWhatsApp | delete_whatsapp_duplicates.py:179-188 | only WhatsApp assets are ever deletable, so the other part can be dropped |
| SelectorProperties.DecideAllSelectsDeletable | delete_whatsapp_duplicates.py:188-205 | deciding a group's WhatsApp assets selects exactly the deletable ones |
| SelectorProperties.GroupSelectsDeletable | delete_whatsapp_duplicates.py:171-205 | each group contributes exactly its deletable ids, in asset order |
| SelectorProperties.DecisionsSelectExpected | delete_whatsapp_duplicates.py:169-205 | the group fold selects exactly the expected deletions |
| SelectorProperties.SelectionIsExpectedDeletions | delete_whatsapp_duplicates.py:163-222 | whenever the selector returns, it returns exactly the expected deletions, in group order then asset order |
| SelectorProperties.ScanSucceedsWhenNamed | delete_whatsapp_duplicates.py:196-202 | the scan does not raise when every original has a file name |
| SelectorProperties.DecideAllSucceeds | delete_whatsapp_duplicates.py:188-213 | a group whose assets all have both keys does not raise |
| SelectorProperties.DecisionsSucceed | delete_whatsapp_duplicates.py:171-213 | a group list whose assets all have both keys does not raise |
| SelectorProperties.SelectionSucceedsWhenFieldsPresent | delete_whatsapp_duplicates.py:163-222 | when every asset has `originalPath` and `originalFileName`, the selector returns the expected deletions |
| SelectorProperties.UnqualifiedGroupContributesNothing | delete_whatsapp_duplicates.py:172-187 | a group of fewer than two assets, or one with only WhatsApp or only other assets, adds no decision and no id |
| SelectorProperties.PartitionSnoc | delete_whatsapp_duplicates.py:179-183 | partitioning one more asset appends it to the part its classification picks |
| SelectorProperties.PartitionAllWhatsApp | delete_whatsapp_duplicates.py:179-183 | a list of WhatsApp assets partitions into itself and nothing |
| SelectorProperties.PartitionNoWhatsApp | delete_whatsapp_duplicates.py:179-183 | a list without WhatsApp assets partitions into nothing and itself |
| SelectorProperties.WhatsAppCount | delete_whatsapp_duplicates.py:176-183 | the number of WhatsApp assets over all groups |
| SelectorProperties.ExpectedDeletionsBounded | delete_whatsapp_duplicates.py:169-205 | the output is no longer than the number of WhatsApp assets over all groups |
| SelectorProperties.TwoAssetGroup | delete_whatsapp_duplicates.py:187-205 | in a group of one WhatsApp asset and one other, the WhatsApp one is selected iff the other is strictly larger (100 vs 200 selects; 100 vs 50 or equal sizes do not) |
| SelectorProperties.RepeatedAssetSelectedTwice | delete_whatsapp_duplicates.py:169-205 | an asset listed in two groups is returned twice |
| ImmichApi.IsCacheValid | delete_whatsapp_duplicates.py:41-48 | the cache is valid iff the file exists and its age is strictly below the threshold; `CacheValidityMonotone` states its properties |
| ImmichApi.CacheValidityMonotone | delete_whatsapp_duplicates.py:41-48 | a valid cache stays valid when younger or under a larger threshold; a cache exactly as old as the threshold is stale |
| ImmichApi.Fallback | delete_whatsapp_duplicates.py:96-113 | after a failed request the cache is used iff the file exists, and fresh data never is |
| ImmichApi.GetAssetDuplicates | delete_whatsapp_duplicates.py:68-113 | a valid cache without force is returned without contacting the API; otherwise a 200 response's body is returned and cached, and any failure falls back to the cache or nothing |
| ImmichApi.ValidCacheIgnoresApi | delete_whatsapp_duplicates.py:76-80 | with a valid cache and no force, the result does not depend on the API's answer |
| ImmichApi.FetchSourceJustified | delete_whatsapp_duplicates.py:76-113 | fresh data only comes from a 200 response, the cache only when the file exists, and nothing is returned iff there is no cache file and the API failed; the cache is written iff fresh data is returned |
| ImmichApi.StaleCacheExample | delete_whatsapp_duplicates.py:41-48 | a cache 25 hours old is stale, so the API is asked; on a timeout the stale cache is still used |
| ImmichApi.DeleteAssets | delete_whatsapp_duplicates.py:115-129 | an empty list succeeds with no request; otherwise one request carries all the ids, it raises iff the request raises, and otherwise success is status 204 exactly |
| BatchDeletion.Batches | delete_whatsapp_duplicates.py:311-312 | there are ceil(n/50) batches, each of 1 to 50 ids, and all but the last of exactly 50 |
| BatchDeletion.BatchAt | delete_whatsapp_duplicates.py:311-312 | batch k is the slice of the ids from 50k up to 50k+50, cut at the end of the list |
| BatchDeletion.FirstBatchesArePrefix | delete_whatsapp_duplicates.py:311-312 | the first k batches together are the first min(50k, n) ids, in order |
| BatchDeletion.BatchesCoverIds | delete_whatsapp_duplicates.py:311-312 | the batches together are exactly the id list |
| BatchDeletion.Flatten | delete_whatsapp_duplicates.py:311-316 | the ids of a list of batches, batch after batch; `BatchesCoverIds` and `FlattenSnoc` state its properties |
| BatchDeletion.FlattenSnoc | delete_whatsapp_duplicates.py:311-316 | appending a batch appends its ids to the concatenation |
| BatchDeletion.Accepted | delete_whatsapp_duplicates.py:123-129 | a batch succeeds iff the server answers 204 |
| BatchDeletion.SucceededBatches | delete_whatsapp_duplicates.py:315-320 | the count of leading successes: every earlier batch was answered 204 and the one at the count, if any, was not |
| BatchDeletion.AttemptedBatches | delete_whatsapp_duplicates.py:311-320 | the batches sent: every batch before the last one sent succeeded, and the run stops early only after a failing batch |
| BatchDeletion.Crashes | delete_whatsapp_duplicates.py:311-322 | the run ends with an exception iff its first failing batch is one whose request raised |
| BatchDeletion.DeletedIds | delete_whatsapp_duplicates.py:311-320 | the deleted ids are the first 50·s ids (cut at the end), where s is the number of batches before the first failure |
| BatchDeletion.DeleteInBatches | delete_whatsapp_duplicates.py:307-322 | the loop sends exactly the batches up to and including the first failing one; the count it reaches is the number of ids in the batches before that one; it ends with the exception iff the failing batch raised |
| BatchDeletion.NothingSentAfterFailure | delete_whatsapp_duplicates.py:318-320 | if batch k fails, no batch after k is sent and at most 50k ids are deleted |
| BatchDeletion.AllBatchesSucceed | delete_whatsapp_duplicates.py:311-317 | when every batch succeeds, every batch is sent, `total_deleted` covers the whole list and the run reaches its report |
| BatchDeletion.SecondBatchRefusedExample | delete_whatsapp_duplicates.py:307-322 | 150 ids whose second batch is refused: two requests are sent, 50 ids deleted, and the run reaches its report |
| BatchDeletion.SecondBatchRaisesExample | delete_whatsapp_duplicates.py:307-322 | 150 ids whose second request raises: two requests are sent, 50 ids deleted, and the run ends with the exception |

## Left out

- The HTTP requests, JSON encoding and decoding, and the cache file's reading and writing (`_save_cache`, `_load_cache`, `load_duplicates_from_file`) are I/O. Their results are inputs: `CachedData` stands for whatever `_load_cache` returns, including its `[]` on a read error.
- A `response.json()` that fails on a 200 response is not modelled; the body is given already decoded.
- The clock and the file's modification time are not read. The cache age is an integer number of microseconds passed in.
- The two `os.path.exists` checks of one fetch are assumed to see the same file: a cache file that appears or vanishes between them is not modelled.
- ImmichApi.GetAssetDuplicates: the threshold is fixed at the 24 hours the code always passes. `IsCacheValid` takes any threshold.
- `format_file_size` and all printed output are presentation. The selector's `Decision` values carry the reported sizes and names instead.
- `main`'s configuration, command-line parsing, API-key check, file-only mode, empty-list early exits, dry-run mode and `input` confirmation are process glue. The batch loop is modelled from the point deletion starts.
- The `ImmichAPI` constructor only stores the base URL, key and headers for the requests, which are not modelled.
- Lower-casing is ASCII only. Python's Unicode `str.lower()` also maps non-ASCII letters.
- JSON `null` values are not modelled. The code raises `AttributeError` on a `null` path, name or `exifInfo`. A missing `exifInfo` and a missing `fileSizeInByte` both become size `None`, read as 0.
- Sizes are natural numbers; negative or non-integer `fileSizeInByte` values are not modelled.
- The asset's `id` key is assumed present. The `KeyError` that `wa_asset['id']` would raise is not modelled.
- The exception a DELETE request raises is one value, `Raised`: its kind (timeout, connection error) and the traceback are not modelled.
