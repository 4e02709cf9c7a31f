# Information Server import/export role: a Dafny model of its core

The role moves metadata between InfoSphere Information Server environments (development, test, production). It extracts, filters, transforms, merges and re-loads business glossary terms, data quality rules, lineage flows, custom attribute definitions and OpenIGC assets. It talks to the Information Governance Catalog (IGC) through its REST API and works on the XML and JSON exports the catalog produces.

This project models the logic of that role that does more than plumbing, one Dafny module per source file:

- `IgcRest` and `IgcClient` (`module_utils/igc_rest.py`). `IgcRest` holds the pure parts:
  - the `::`-joined identity;
  - the renaming of context types into query parameters;
  - paging;
  - the three relationship update modes.

  `IgcClient.RestIGC` is a class whose fields are the per-type lookup counters, the context caches, the property-map cache and the logs of queries and updates. Its methods update those fields in place.
- `IgcWorkflow`: the workflow table, the chain of actions from a state towards a final action, and the bucketing of assets by state.
- `InfosvrTypes`: the extract-object builders and type tables.
- `MergeRelationships` (specification) and `MergeLoop` (the loops): the merge of relationship files, with de-duplication.
- `ExtractRelationships`, `ChangedAssets`, `AssetValuesCsv` and `CheckRelationships`: the JSON-side modules.
- The XML pruning modules:
  - `GlossaryHandler` and `GlossaryFilter`;
  - `IaHandler` and `IaExtract`;
  - `CustomAttrHandler` and `CustomAttrChanges`;
  - `OpenIgcHandler`, `OpenIgcExtract` and `OpenIgcLoad`.
- `OmdHandler`: the host replacement and runtime identity of OMD lineage flows.

Shared modules:

- `Wrappers` holds `Option` and `Result`. A Python exception becomes an `Err` carrying its message.
- `Text` holds string splitting and joining. `Lists` holds sequence helpers.
- `JsonModel` and `RestModel` hold JSON values, assets, queries and the backend.
- `XmlDoc` holds an XML document as an arena of nodes. Each node has a tag, string attributes and the index of its parent.

The catalog's REST backend is a parameter: a value of total functions that answer a search, an update, a workflow action and a next-page request. Each module's doc comments name the source lines it follows.

## Model

| member | source | states |
|---|---|---|
| IgcRest.AllPages | module_utils/igc_rest.py:78-98 | following `next` links only ever adds to the first page |
| IgcRest.AllPagesServed | module_utils/igc_rest.py:78-98 | paging yields the first page followed by every page the links serve |
| IgcRest.Collect | module_utils/igc_rest.py:110-125 | a search with `get_all` answers nothing exactly on a non-200 answer, else the first page and every further page |
| IgcRest.Rids | module_utils/igc_rest.py:419-423 | the ids of the items in order, defined exactly when every item has an `_id` |
| IgcRest.RidsOfType | module_utils/igc_rest.py:419-423 | exactly the ids of the items of the given type |
| IgcRest.CtxQueryParamName | module_utils/igc_rest.py:216-240 | fails exactly for a bundle type without `-`; empty exactly for the BI root folder, BI server and empty types; `host_(engine)` becomes `host` except for transformation projects; `category`, `data_class` and `design_table` become `parent_category`, `parent_data_class` and `design_table_or_view`; a bundle type becomes `$` and its text after the first `-`; any other type is kept |
| IgcRest.IdentityInjective | module_utils/igc_rest.py:242-247 | when no name contains a colon, two equal identities come from the same context names and the same name |
| IgcRest.IndexContexts | module_utils/igc_rest.py:186-190 | succeeds exactly when every item has an `_id`; the keys are exactly those ids |
| IgcRest.IndexContextsLastWins | module_utils/igc_rest.py:186-190 | the cached context of an id is that of the last item with the id |
| IgcRest.IndexByIdentity | module_utils/igc_rest.py:327-334 | the keys are exactly the identities of the items, each mapped to one of the items |
| IgcRest.IndexByIdentityFirstWins | module_utils/igc_rest.py:327-334 | the asset cached under an identity is the first one with it |
| IgcRest.PropertyMapOf | module_utils/igc_rest.py:142-147 | the keys are exactly the names of the editable properties |
| IgcRest.PropertyMapLastWins | module_utils/igc_rest.py:142-147 | each property name maps to the display name of its last occurrence |
| IgcRest.OneOffContext | module_utils/igc_rest.py:207-214 | a context exactly when the search answered with at least one item, and then the first item's |
| IgcRest.WalkStep | module_utils/igc_rest.py:273-295 | one context entry fails exactly when it is not a folder and its type is a bundle type without `-` |
| IgcRest.WalkShape | module_utils/igc_rest.py:273-295 | the walk keeps the non-folder entries in order, gathers the folders into a path, and adds no more conditions than mapped entries and none through a physical data model |
| IgcRest.WalkFails | module_utils/igc_rest.py:273-295 | the walk fails exactly when some non-folder entry has a bundle type without `-` |
| IgcRest.MappedLookup | module_utils/igc_rest.py:251-308 | a successful lookup searches the asset's own type under a where clause |
| IgcRest.MappedLookupShape | module_utils/igc_rest.py:296-308 | without folders the identity follows the mapped context in order; with folders the folder components follow the first entry, last component first |
| IgcRest.DevQuery | module_utils/igc_rest.py:336-343 | the draft-mode query keeps the types, page size and conditions and adds the condition that the asset is in the workflow |
| IgcRest.ReplaceItems | module_utils/igc_rest.py:438-439 | a partial replace keeps exactly the existing ids not matched for removal |
| IgcRest.ReconcileSimpleModes | module_utils/igc_rest.py:461-481 | a full replace sends exactly the given ids, even none; the append mode sends an append only when there is something to append |
| IgcRest.ReconcileReplaceSome | module_utils/igc_rest.py:413-460 | a partial replace searches the existing relations first; with none, it appends exactly the given ids when there are any and otherwise sends nothing; with some, it does exactly what `ReplaceSome` does (stated by `ReplaceSomeOutcome`); a replace happens only when some existing relation has the replace type |
| IgcRest.ReplaceSomeShape | module_utils/igc_rest.py:419-449 | once relations exist, a replace sends only ids of existing relations and only after a second search found a matching relation; otherwise the given ids are appended or nothing is sent |
| IgcRest.ReplaceSomeOutcome | module_utils/igc_rest.py:419-449 | once relations exist: when the replacement search hits, the update replaces the relationship with exactly the existing ids minus the hit ids (an id is sent iff some existing relation has it and no hit has it) and the given ids are not added; when it does not hit, the given ids are appended iff there are any; a relation or hit without `_id` is the KeyError and sends nothing |
| IgcClient.RestIGC.constructor | module_utils/igc_rest.py:29-48 | a session starts with empty caches, counters and logs |
| IgcClient.RestIGC.SearchFirst | module_utils/igc_rest.py:110-125 | one query is logged and the first page is the answer |
| IgcClient.RestIGC.Search | module_utils/igc_rest.py:110-125 | one query is logged and the answer is every page of the search, extending its first page |
| IgcClient.RestIGC.IsWorkflowEnabled | module_utils/igc_rest.py:61-69 | enabled exactly when the draft-mode probe answers with a positive total |
| IgcClient.RestIGC.Update | module_utils/igc_rest.py:100-108 | the update is logged, then sent, and the backend's answer is returned |
| IgcClient.RestIGC.TakeWorkflowAction | module_utils/igc_rest.py:152-163 | the action is posted lower-cased and success is the backend's answer |
| IgcClient.RestIGC.GetPropertyMap | module_utils/igc_rest.py:127-150 | a type in both caches is answered from them; otherwise the type info is fetched and cached only when the answer is 200; a sound cache stays sound and never changes the answer |
| IgcClient.RestIGC.GetIdentity | module_utils/igc_rest.py:242-247 | the context names and the name, joined by `::` |
| IgcClient.RestIGC.GetContextForItem | module_utils/igc_rest.py:165-214 | the answer and the new counters and cache are those of the recursive lookup specification: a cached type answers from the cache (no context when the id is absent); otherwise the lookup is counted and, past the limit with caching on, every asset of the type is fetched into the cache and the lookup is made again; otherwise a one-off search by id answers the first hit's context, or none; an asset without `_id` in the bulk fetch fails with KeyError |
| IgcClient.IndexBulk | module_utils/igc_rest.py:186-190 | the bulk loop builds exactly the `IndexContexts` map: every asset's context under its `_id`, a later asset with the same id winning; an asset without `_id` raises KeyError |
| IgcClient.RestIGC.VisitEntry | module_utils/igc_rest.py:273-295 | one turn of the context walk is the step the walk specification defines |
| IgcClient.RestIGC.WalkTurn | module_utils/igc_rest.py:273-295 | visiting one more context entry, after the entries behind it have walked cleanly, gives the walk of the context from that entry on, including its failure |
| IgcClient.RestIGC.WalkContext | module_utils/igc_rest.py:273-295 | the loop over the reversed context computes the walk |
| IgcClient.RestIGC.InsertFolders | module_utils/igc_rest.py:306-307 | each folder component is inserted after the first context entry |
| IgcClient.RestIGC.BuildLookup | module_utils/igc_rest.py:251-308 | the query and identity built are the mapped lookup of the asset |
| IgcClient.RestIGC.IndexIdentities | module_utils/igc_rest.py:327-334 | the loop builds the identity index, first asset of each identity |
| IgcClient.RestIGC.FillIdentityCache | module_utils/igc_rest.py:321-356 | the bulk branch logs one bulk query, caches every asset of the type by identity, and then fails |
| IgcClient.RestIGC.SearchCounterparts | module_utils/igc_rest.py:358-380 | the draft-mode matches (for workflow types) followed by the published matches, with exactly those queries logged |
| IgcClient.RestIGC.GetMappedItem | module_utils/igc_rest.py:251-380 | a failed mapping fails; a cached type answers from the identity cache; otherwise the lookup is counted and either fills the cache (and fails) or searches for counterparts |
| IgcClient.RestIGC.ReplaceSomeOf | module_utils/igc_rest.py:413-460 | the partial replace once the existing relations are known sends what the reconciliation specification prescribes |
| IgcClient.RestIGC.AddRelationshipsToAsset | module_utils/igc_rest.py:382-481 | the queries and updates sent and the answer are those the reconciliation specification prescribes for the mode |
| InfosvrTypes.GetProperties | module_utils/infosvr_types.py:81-86 | the common properties, preceded by the type's extra ones when it has any; `modified_on` always comes last |
| InfosvrTypes.DsJobExtract | module_utils/infosvr_types.py:117-138 | defined exactly when the job has a project context and a type; host, project and job name qualified by the job type |
| InfosvrTypes.DsRoutineExtract | module_utils/infosvr_types.py:140-154 | defined exactly when the routine has a project context; the routine's name with any extension |
| InfosvrTypes.DsSharedContainerExtract | module_utils/infosvr_types.py:156-173 | defined exactly when the container has a project context and a type; its name qualified by the container type |
| InfosvrTypes.QualifiedTableDefinitionName | module_utils/infosvr_types.py:175-185 | needs string data source and data store properties; the name qualified by them, or empty when blacklisted |
| InfosvrTypes.TableDefinitionNames | module_utils/infosvr_types.py:175-185 | no blacklisted name survives, and every export name ends in `.tbd` |
| InfosvrTypes.DsTableDefinitionExtract | module_utils/infosvr_types.py:187-199 | a table definition is exported unless its qualified name is blacklisted |
| InfosvrTypes.DsParameterSetExtract | module_utils/infosvr_types.py:201-213 | defined exactly when the set has a project context; the name with `.pst` |
| InfosvrTypes.DataClassExtract | module_utils/infosvr_types.py:215-221 | only a top-level data class is exported, by its class code, which must be present |
| InfosvrTypes.FolderName | module_utils/infosvr_types.py:223-230 | defined exactly when the parent folder is a reference object |
| InfosvrTypes.MappingDocumentExtract | module_utils/infosvr_types.py:223-230 | defined exactly when the folder name and file name are; name, folder and file |
| InfosvrTypes.ExternalAssetExtract | module_utils/infosvr_types.py:232-239 | the asset's name, with an extract type exactly for the listed types |
| InfosvrTypes.InfoAnalyzerExtract | module_utils/infosvr_types.py:241-249 | defined exactly when the asset has a first project; name, that project, and an extract type exactly for the listed types |
| InfosvrTypes.RidOnlyExtract | module_utils/infosvr_types.py:113-115 | defined exactly when the asset has an id, which is then the export object |
| InfosvrTypes.GetAssetExtractObject | module_utils/infosvr_types.py:88-111 | an unsupported type yields the not-implemented marker and only such a type does; glossary types export by id; only table definitions and data classes can export nothing |
| IgcWorkflow.GetNextAction | library/igc_workflow.py:350-363 | fails exactly when the final action moves along the workflow and the state is unknown; any other final action is taken as is |
| IgcWorkflow.NextActionLeaves | library/igc_workflow.py:350-385 | from a workflow state the next action exists, keeps the direction of the final action and leaves the state |
| IgcWorkflow.ChainFrom | library/igc_workflow.py:366-395 | a chain never enters more states than it takes actions |
| IgcWorkflow.ChainBounded | library/igc_workflow.py:366-395 | a chain started as the next action picks never fails, takes a bounded number of actions and enters only states closer to the end |
| IgcWorkflow.ChainNoRevisit | library/igc_workflow.py:366-395 | no state is entered twice and the starting state is never re-entered |
| IgcWorkflow.ChainStops | library/igc_workflow.py:381-395 | the chain stops exactly at a terminal action or at the final action |
| IgcWorkflow.ProgressiveChain | library/igc_workflow.py:350-395 | a progressive chain runs along the progressive path to the final action, or on to `publish` when the final action lies behind the state |
| IgcWorkflow.RegressiveChain | library/igc_workflow.py:350-395 | a regressive chain is `discard` from DRAFT, otherwise `return`, followed by `discard` when that is the final action |
| IgcWorkflow.Recorded | library/igc_workflow.py:381-387 | no more records than actions attempted |
| IgcWorkflow.RecordedOnce | library/igc_workflow.py:381-387 | every attempted action is recorded exactly once, as a success or as a failure |
| IgcWorkflow.StateOf | library/igc_workflow.py:292-295 | the state read from an asset is one of the workflow states |
| IgcWorkflow.IdsIn | library/igc_workflow.py:286-295 | a bucket holds no more ids than there are assets |
| IgcWorkflow.BucketsPartition | library/igc_workflow.py:286-295 | the three buckets together hold every asset once |
| IgcWorkflow.IdsInMembership | library/igc_workflow.py:286-295 | an id is in a bucket exactly when some asset with that id is in that state |
| IgcWorkflow.BucketByState | library/igc_workflow.py:286-295 | the loop fails exactly on an asset it cannot bucket; otherwise the buckets are the ids by state |
| IgcWorkflow.AllModeMovesOwnBuckets | library/igc_workflow.py:309-342 | every ALL-mode move acts on the whole bucket of its own state, every non-empty bucket is moved, in workflow order |
| IgcWorkflow.ApprovedBucketMisrouted | library/igc_workflow.py:334-342 | as written, an asset only in APPROVED is handed to the APPROVED move as an empty list |
| IgcWorkflow.Moves | library/igc_workflow.py:299-342 | an unknown state fails; a named state moves its own bucket, even when empty (with the corrected ALL-mode APPROVED move, see Findings) |
| IgcWorkflow.PerformRecordsAll | library/igc_workflow.py:299-395 | with a known final action every chain of every move is recorded, successes and failures adding up to the actions attempted |
| IgcWorkflow.WorkflowQuery | library/igc_workflow.py:250-275 | a draft-mode query of the type for name and state, page size `batch`, with the user conditions nested in one group after the state condition |
| IgcWorkflow.WorkflowRun.constructor | library/igc_workflow.py:189-230 | a run starts with nothing counted, moved or failed |
| IgcWorkflow.WorkflowRun.MoveToNextState | library/igc_workflow.py:366-395 | the recursion records exactly the chain's successes and failures, and crashes exactly when the chain does |
| IgcWorkflow.WorkflowRun.MoveBucket | library/igc_workflow.py:299-308 | one bucket's move records what its chain records |
| IgcWorkflow.WorkflowRun.MoveAll | library/igc_workflow.py:309-342 | ALL mode records what the corrected moves record, stopping at a crash (with the corrected ALL-mode APPROVED move, see Findings) |
| IgcWorkflow.WorkflowRun.MoveSome | library/igc_workflow.py:299-308 | at most one move, recorded as specified |
| IgcWorkflow.WorkflowRun.Run | library/igc_workflow.py:245-346 | a disabled workflow or a failed query ends the run with nothing moved and the count unchanged; otherwise the query is logged, the count is the number of assets, and the assets are bucketed and moved as the corrected moves specify (the APPROVED move gets the APPROVED bucket, see Findings) |
| MergeRelationships.Consolidated | library/igc_merge_relationships.py:181-184 | one output asset per key, in key order |
| MergeRelationships.WithAssetKeys | library/igc_merge_relationships.py:157-161 | an asset adds its key to the order and the merged assets exactly when the key is new |
| MergeRelationships.MergeOrder | library/igc_merge_relationships.py:157-184 | the output order is the asset keys without repeats, first seen first, and the merged assets are exactly those keys |
| MergeRelationships.MergeOrderUnique | library/igc_merge_relationships.py:157-184 | every asset key appears in the output exactly once, and nothing else does |
| MergeRelationships.RelationsTracked | library/igc_merge_relationships.py:170-177 | adding relations adds exactly their unseen mapped keys |
| MergeRelationships.PropertiesTracked | library/igc_merge_relationships.py:162-179 | merging one asset's members keeps the seen keys and merged lists in step |
| MergeRelationships.MergedRelations | library/igc_merge_relationships.py:157-184 | a list property becomes the duplicate-free union of the mapped relations of every occurrence, first seen first |
| MergeRelationships.MergedRelationsOwn | library/igc_merge_relationships.py:157-184 | an asset of the tracked key extends the property's merged relations by its own new ones, keeping them duplicate-free |
| MergeRelationships.MergedRelationsOther | library/igc_merge_relationships.py:157-184 | an asset of another key leaves the tracked property's merged relations as they were |
| MergeRelationships.ScalarLastWins | library/igc_merge_relationships.py:178-179 | a non-list member keeps the value of its last occurrence across all assets with the key |
| MergeRelationships.UnderscoreFromIdentity | library/igc_merge_relationships.py:158-164 | a merged asset has a `_` member only when its mapped identity does, with that value |
| MergeLoop.MergeRelations | library/igc_merge_relationships.py:170-177 | the loop computes the relation merge |
| MergeLoop.MergeMembers | library/igc_merge_relationships.py:162-179 | the loop computes the member merge |
| MergeLoop.Consolidate | library/igc_merge_relationships.py:181-184 | the loop builds the output list |
| MergeLoop.MergeAsset | library/igc_merge_relationships.py:157-179 | one asset is merged as specified |
| MergeLoop.MergeFile | library/igc_merge_relationships.py:157-179 | a file's assets continue the merge of those before them |
| MergeLoop.FileStep | library/igc_merge_relationships.py:157-179 | merging one more asset of a file continues the merge of the assets before it, and an earlier failure carries over |
| MergeLoop.MergeFiles | library/igc_merge_relationships.py:127-184 | the whole loop yields the specified output, and the reported count is the number of merged assets written (the intended `merge_count`, see Findings) |
| MergeLoop.MergeCountCounts | library/igc_merge_relationships.py:96-100 | the intended count, the length of the output, is the number of distinct asset keys across all files |
| MergeLoop.MergeCountAsWrittenMisses | library/igc_merge_relationships.py:127-130 | as written, `merge_count` stays 0 even when one asset is merged |
| ExtractRelationships.BuildQuery | library/igc_extract_relationships.py:253-277 | the request asks for the relationship properties of the one type at the given page size; it has a `where` exactly when there are conditions or a start time, joined by `and`, with the `modified_on` window after the given conditions |
| ExtractRelationships.MinifyExactly | library/igc_extract_relationships.py:351-353 | minifying succeeds exactly when the asset has an `_id` and a `_url`, and removes those two keys and nothing else |
| ExtractRelationships.MinifyContext | library/igc_extract_relationships.py:292-293 | the context is minified entry by entry, each entry losing exactly its `_id` and `_url`, keeping length, order, types and names; it fails exactly when some entry lacks `_id` or `_url`, with the matching KeyError |
| ExtractRelationships.KeptExactly | library/igc_extract_relationships.py:298-302 | the relations kept are exactly those whose type is in the limit list, or all of them when that list is empty |
| ExtractRelationships.KeptAppend | library/igc_extract_relationships.py:298-302 | keeping preserves relative order: it distributes over concatenation |
| ExtractRelationships.KeptNoLimit | library/igc_extract_relationships.py:300 | with an empty limit list every relation is kept, in order |
| ExtractRelationships.RemovalIndices | library/igc_extract_relationships.py:296-302 | every position marked for removal lies in the list and holds an unwanted relation |
| ExtractRelationships.DeleteAscending | library/igc_extract_relationships.py:313-314 | deleting the marked positions one after another, when it does not raise, shortens the list by one per index |
| ExtractRelationships.DeleteAscendingKeepsWrongRelation | library/igc_extract_relationships.py:296-314 | for two unwanted relations ahead of a wanted one, the deletions as written keep an unwanted relation and drop the wanted one |
| ExtractRelationships.DeleteAscendingRaises | library/igc_extract_relationships.py:296-314 | for two unwanted relations at the end, the second deletion as written is out of range |
| ExtractRelationships.MinifiedContext | library/igc_extract_relationships.py:292-293 | minifying a context succeeds exactly when every entry has `_id` and `_url`; it then keeps length and order and each entry loses exactly those two keys; otherwise it raises the KeyError of the first entry missing one |
| ExtractRelationships.ResolvedAllStep | library/igc_extract_relationships.py:303-311 | resolving one more kept relation extends the one-for-one correspondence between kept relations and relations written |
| ExtractRelationships.ResolveStepExactly | library/igc_extract_relationships.py:303-311 | a relation without `_id` fails before any lookup and leaves the cache state alone; otherwise the state is what its `getContextForItem` lookup leaves, the relation is written exactly when it has `_url`, the lookup answers a context and every entry of it has `_id` and `_url`, it is then written minified with that context minified, and the run fails with "Unable to retieve context for search result" exactly when the lookup answers none |
| ExtractRelationships.ResolveAllOk | library/igc_extract_relationships.py:298-311 | a relation loop that succeeds writes every kept relation resolved, one for one and in order, and counts them all |
| ExtractRelationships.ResolveAllTurns | library/igc_extract_relationships.py:298-311 | in a relation loop that succeeds, each relation written is the one its own turn resolved, from the cache state the earlier lookups left |
| ExtractRelationships.ResolveAllFails | library/igc_extract_relationships.py:298-311 | a relation loop that fails ends at its first failing turn, with that turn's error and cache state, and with exactly the relations before it counted |
| ExtractRelationships.ResolveAllStops | library/igc_extract_relationships.py:298-311 | once a prefix of the kept relations fails, the whole loop fails the same way |
| ExtractRelationships.ResolveAllExactly | library/igc_extract_relationships.py:298-311 | the relation loop succeeds exactly when every turn does |
| ExtractRelationships.ResolveOne | library/igc_extract_relationships.py:303-311 | the answer and the new cache state are exactly those of `ResolveStep`, whose outcome `ResolveStepExactly` pins down: the `getContextForItem` lookup, the missing-context failure and the KeyErrors of `minifyItem` |
| ExtractRelationships.ResolveTurn | library/igc_extract_relationships.py:298-311 | one more turn of the relation loop extends its outcome exactly as the loop function says, on success and on failure |
| ExtractRelationships.ResolveRelations | library/igc_extract_relationships.py:296-314 | the relations written, the count and the new cache state are exactly those of the loop over the kept relations, each looked up from the state the earlier lookups left; on success every kept relation is written resolved, one for one, and counted; searches are only appended (the removal as intended, see Findings; cached contexts are values, see Left out) |
| ExtractRelationships.PropFromExactly | library/igc_extract_relationships.py:295-314 | a relationship property is extracted exactly when it is a paged relationship whose kept relations all resolve; it then holds them, counted, and every other property stays; a missing or unpaged property fails before any lookup |
| ExtractRelationships.ExtractTurnSound | library/igc_extract_relationships.py:295-314 | every successful property turn holds its property extracted, counts its kept relations, and leaves the other properties alone |
| ExtractRelationships.ExtractedSnoc | library/igc_extract_relationships.py:294-314 | a property cannot be extracted twice (it is no longer paged), and extracting one more keeps the earlier ones extracted |
| ExtractRelationships.PropsLoopOk | library/igc_extract_relationships.py:294-314 | a property loop that succeeds holds every listed property extracted and every other property as it was, and counts the kept relations of them all |
| ExtractRelationships.PropsLoopTurns | library/igc_extract_relationships.py:294-314 | a property loop that succeeds had every turn succeed |
| ExtractRelationships.PropsLoopFails | library/igc_extract_relationships.py:294-314 | a property loop that fails ends at its first failing property, with the relations of the earlier properties and those resolved before the failure counted |
| ExtractRelationships.PropsLoopStops | library/igc_extract_relationships.py:294-314 | once a prefix of the properties fails, the loop fails the same way |
| ExtractRelationships.PropsFromExactly | library/igc_extract_relationships.py:294-314 | the loop over an asset's relationship properties succeeds exactly when every turn does; on success it holds them all extracted and counts their kept relations; on failure it carries the first failing turn's error and count |
| ExtractRelationships.ItemFromExactly | library/igc_extract_relationships.py:290-314 | an asset is written out exactly when it and every entry of its context have `_id` and `_url` and all its relationship properties are extracted; it is then minified with a minified context and its kept relations counted; a missing key on the asset or its context fails before any lookup |
| ExtractRelationships.AllFromOk | library/igc_extract_relationships.py:290-314 | an asset loop that succeeds writes every asset found, one for one and in order, as its own turn wrote it, and counts the kept relations of them all |
| ExtractRelationships.AllFromFails | library/igc_extract_relationships.py:290-314 | an asset loop that fails ends at its first failing asset, with the relations of the earlier assets and those resolved before the failure counted |
| ExtractRelationships.AllFromStops | library/igc_extract_relationships.py:290-314 | once a prefix of the assets fails, the loop fails the same way |
| ExtractRelationships.AllFromExactly | library/igc_extract_relationships.py:290-314 | the asset loop succeeds exactly when every asset's turn does |
| ExtractRelationships.ExtractProperty | library/igc_extract_relationships.py:294-314 | the new properties, the count and the cache state are exactly those `PropFrom` gives; on success the property holds its resolved kept relations, counted, and every other property stays (the removal as intended, see Findings; cached contexts are values, see Left out) |
| ExtractRelationships.ExtractItem | library/igc_extract_relationships.py:290-314 | the asset written, the count and the cache state are exactly those `ItemFrom` gives, so `ItemFromExactly` says when it succeeds; on success the asset is minified, with minified context and every relationship property resolved, and the count is its kept relations (the removal as intended, see Findings; cached contexts are values, see Left out) |
| ExtractRelationships.ExtractAll | library/igc_extract_relationships.py:290-314 | the assets written, the relationship count and the cache state are exactly those `AllFrom` gives, on success and on failure; on success every asset found is written out, one for one, and the count is the total of relations kept (the removal as intended, see Findings; cached contexts are values, see Left out) |
| ExtractRelationships.Run | library/igc_extract_relationships.py:250-314 | the request is logged twice; a failed search fails the run with both counts zero; otherwise `asset_count` is the number of assets found and the output, `relationship_count` and cache state are exactly those of `AllFrom`, on success and on failure alike; on success every asset found is written out (the removal as intended, see Findings; cached contexts are values, see Left out) |
| ChangedAssets.Windows | library/igc_get_changed_assets.py:228-474 | one `between` window per sub-asset path, in order, each on that path's `modified_on` |
| ChangedAssets.OnlyLabelHasNoWindow | library/igc_get_changed_assets.py:475-482 | the request carries no time window exactly when the type is `label` |
| ChangedAssets.TimeConditionsTestWindow | library/igc_get_changed_assets.py:227-482 | every generated condition tests only the window: a `between` on some `modified_on` from the start to the end time, the never-run test, or an OR group of those |
| ChangedAssets.GroupedShapes | library/igc_get_changed_assets.py:228-474 | applications and stored procedures get one OR group of five windows; models, databases and schemas an OR group and then their own window; data rules, rule sets and metrics an OR of never-run and the last run's window, then their own window |
| ChangedAssets.PlainShape | library/igc_get_changed_assets.py:475-482 | every other type except `label` gets exactly one window, on its own `modified_on` |
| ChangedAssets.AppendWindows | library/igc_get_changed_assets.py:228-474 | the OR group gains one window per property, after the conditions it already had |
| ChangedAssets.BuildTimeConditions | library/igc_get_changed_assets.py:227-482 | the conditions appended and filled in place are the type's time conditions described by the lemmas above |
| ChangedAssets.BuildChangeQuery | library/igc_get_changed_assets.py:215-485 | the request asks for the type's properties and the one type, with the time conditions followed by the caller's conditions under `and` |
| ChangedAssets.CollectedBounds | library/igc_get_changed_assets.py:495-501 | at most one extract object per hit; an unsupported type fails as soon as there is a hit; only table definitions and data classes can be skipped |
| ChangedAssets.CollectedGlossary | library/igc_get_changed_assets.py:495-501 | for glossary types the run collects the ids of the hits |
| ChangedAssets.RidsOrFailExactly | library/igc_get_changed_assets.py:495-501 | the ids are collected exactly when every hit has one, and then one per hit, in order |
| ChangedAssets.CollectExtracts | library/igc_get_changed_assets.py:495-501 | the loop yields the extract objects the lemmas above describe, failing at the first hit that cannot be converted |
| ChangedAssets.Run | library/igc_get_changed_assets.py:212-501 | one search is logged; a failed search fails the run with no count; otherwise the count is the number of hits and the result is their extract objects |
| AssetValuesCsv.ContextWrites | library/igc_json_to_asset_values_csv.py:219-226 | one cell per context entry of the asset, in context order: the column is the entry type's display name, with `Host (Engine)` shortened to `Host`, and the value is the mapped context name |
| AssetValuesCsv.MappedNames | library/igc_json_to_asset_values_csv.py:238-240 | each context entry of a related asset becomes its mapped name, in order |
| AssetValuesCsv.CtxPathJoin | library/igc_json_to_asset_values_csv.py:237-242 | the context path is the mapped names joined by `>>` with a trailing `>>`, or empty without context |
| AssetValuesCsv.RelationTextJoin | library/igc_json_to_asset_values_csv.py:237-242 | a relation's text is the quoted `>>`-joined list of the mapped context names followed by the related asset's own name |
| AssetValuesCsv.RelationCellShape | library/igc_json_to_asset_values_csv.py:244-247 | a relationship cell is empty exactly when the property has no relations, and otherwise is bracketed |
| AssetValuesCsv.RowOf | library/igc_json_to_asset_values_csv.py:214-247 | the row has a column exactly for each cell written; a column written twice keeps its last text |
| AssetValuesCsv.AssetWritesStartWithName | library/igc_json_to_asset_values_csv.py:215-217 | an asset's first cell is `Name` with the asset's name |
| AssetValuesCsv.RowColumns | library/igc_json_to_asset_values_csv.py:214-247 | every row has a `Name` and only the columns its cells were written to |
| AssetValuesCsv.HeaderStartsWithName | library/igc_json_to_asset_values_csv.py:215-216 | the first asset's first column is `Name`, which thus heads the header |
| AssetValuesCsv.ShapedSnoc | library/igc_json_to_asset_values_csv.py:212-251 | one more asset's cells keep the header free of repeats and every row within the header, the old header is a prefix of the new, and an empty header gains `Name` first |
| AssetValuesCsv.TableShape | library/igc_json_to_asset_values_csv.py:212-251 | the header lists every column once starting with `Name`; every row has `Name` and only header columns; there is one row per asset |
| AssetValuesCsv.ConvertCounts | library/igc_json_to_asset_values_csv.py:206-251 | the conversion succeeds exactly when there is an asset and every asset's cells can be written; then every asset is counted and gives a row, none is untranslated, and the type name is the first asset's type's display name |
| AssetValuesCsv.RenderRelation | library/igc_json_to_asset_values_csv.py:237-242 | the text built by appending is the relation's text |
| AssetValuesCsv.RenderCell | library/igc_json_to_asset_values_csv.py:236-247 | the cell built is the bracketed, `;`-joined list of the relations' texts, or empty |
| AssetValuesCsv.ContextCells | library/igc_json_to_asset_values_csv.py:219-226 | the header gains each new context column in order and the row gains each context cell |
| AssetValuesCsv.PropertyCells | library/igc_json_to_asset_values_csv.py:229-247 | the header and the row gain the relationship cells, or the loop fails as the cells' definition does |
| AssetValuesCsv.ConvertAsset | library/igc_json_to_asset_values_csv.py:213-251 | one asset's cells go to the row and any new column to the header, or the asset's failure is returned |
| AssetValuesCsv.ConvertAssets | library/igc_json_to_asset_values_csv.py:206-251 | the whole conversion yields the result `ConvertCounts` and `TableShape` describe |
| CheckRelationships.Recorded | library/igc_check_relationships.py:136-151 | one property's name is appended to the list of its kind when not already there; no other list and not the flag changes |
| CheckRelationships.RecordedAllLists | library/igc_check_relationships.py:136-151 | recording properties adds their names of each kind, skipping those already listed, and leaves the flag alone |
| CheckRelationships.ReportLists | library/igc_check_relationships.py:133-151 | each list holds the names of its kind across all assets, each once, in first-seen order; the flag answers for the last asset only |
| CheckRelationships.ReportMembership | library/igc_check_relationships.py:133-151 | every list is free of repeats and holds a name exactly when some property of that kind has it |
| CheckRelationships.KindPrefixes | library/igc_check_relationships.py:138-151 | a property is custom exactly when its name starts with `custom_`, and skipped exactly when it starts with `_` |
| CheckRelationships.NamesOfKindMembers | library/igc_check_relationships.py:136-151 | a name is among the names of a kind exactly when some property of that kind carries it |
| CheckRelationships.RecordProperty | library/igc_check_relationships.py:137-151 | the branches applied to one property record it as `Recorded` states |
| CheckRelationships.CheckAsset | library/igc_check_relationships.py:134-151 | the flag is overwritten by the asset's type, then each property is recorded in order |
| CheckRelationships.CheckAssets | library/igc_check_relationships.py:133-151 | the loop over the file's assets yields the report `ReportLists` describes |
| GlossaryHandler.TypeCode | module_utils/glossary_handler.py:29-35 | a code is defined exactly for the five REST type names of the table |
| GlossaryHandler.TagsDistinct | module_utils/glossary_handler.py:45-70 | the section element tags differ from the custom-attribute tags, and distinct sections have distinct tags |
| GlossaryHandler.Glossary.constructor | module_utils/glossary_handler.py:39-43 | the handler holds the parsed document, unchanged |
| GlossaryHandler.Glossary.Select | module_utils/glossary_handler.py:45-67 | a section's elements are exactly the root's section children's children with the element tag, each once |
| GlossaryHandler.Glossary.Synonyms | module_utils/glossary_handler.py:57-58 | a group's synonyms are exactly its `synonyms/termRef` grandchildren, each once |
| GlossaryHandler.Glossary.CustomAttributes | module_utils/glossary_handler.py:69-70 | an asset's custom attributes are exactly its `customAttributes/customAttributeValue` grandchildren, each once |
| GlossaryHandler.Glossary.GetCustomAttrName | module_utils/glossary_handler.py:72-73 | the `customAttribute` attribute, failing exactly when it is absent |
| GlossaryHandler.Glossary.GetName | module_utils/glossary_handler.py:75-76 | the `name` attribute, failing exactly when it is absent |
| GlossaryHandler.Glossary.IsRelationship | module_utils/glossary_handler.py:78-79 | true exactly when the value has a `customAttributeReferences` child |
| GlossaryHandler.Glossary.Values | module_utils/glossary_handler.py:82 | a text is among the values exactly when one of the elements carries it as its `value` attribute |
| GlossaryHandler.Glossary.CustomAttrAppliesToThisType | module_utils/glossary_handler.py:81-83 | fails exactly for a type outside the table; otherwise true exactly when some `appliesTo/classType` child of the definition carries the type's code |
| GlossaryHandler.Glossary.GetRid | module_utils/glossary_handler.py:85-86 | the `rid` attribute, failing exactly when it is absent |
| GlossaryHandler.Glossary.DropAsset | module_utils/glossary_handler.py:88-91 | the element leaves its parent, nothing else moves, and the result is marked changed |
| GlossaryHandler.Glossary.DropSection | module_utils/glossary_handler.py:93-97 | exactly the root's children with the section tag leave the root, none is left, and the result is marked changed exactly when one was there |
| GlossaryHandler.DropSectionEmpties | module_utils/glossary_handler.py:93-97 | once every root child with the tag has left, the root has no such child |
| GlossaryFilter.DocumentedFormNeverKept | library/glossary_filter_changes.py:153 | a keep list of `{rid: ...}` entries keeps nothing under the membership test as written, while the intended test keeps exactly the rids listed |
| GlossaryFilter.DocumentedExampleDropsEverything | library/glossary_filter_changes.py:66-67 | the documented example entry does not keep its own rid as written, and does under the intended test |
| GlossaryFilter.KeptExtendsAsWritten | library/glossary_filter_changes.py:153 | the intended test keeps everything the written test keeps, and agrees with it on lists of plain strings |
| GlossaryFilter.DroppedTagsTable | library/glossary_filter_changes.py:112-149 | for a known type every asset section except its own is dropped, except that terms keep their synonym groups; an unknown type drops nothing more; only section tags are dropped |
| GlossaryFilter.AssetPassRemovesTags | library/glossary_filter_changes.py:151-161 | the asset pass removes only the type's assets and custom-attribute values |
| GlossaryFilter.AssetPassRemovesAssets | library/glossary_filter_changes.py:151-161 | the asset pass removes an asset exactly when its rid is not kept (with the corrected kept-rid comparison, see Findings) |
| GlossaryFilter.DropIfRelationship | library/glossary_filter_changes.py:160-161 | a custom-attribute value leaves its asset exactly when it is a relationship, and the result is marked changed exactly then |
| GlossaryFilter.StripRelationships | library/glossary_filter_changes.py:159-161 | exactly the kept asset's relationship-valued custom attributes leave it |
| GlossaryFilter.FilterAsset | library/glossary_filter_changes.py:152-161 | fails exactly when the asset has no rid; otherwise an asset not kept leaves, and a kept one stays and loses exactly its relationship values (with the corrected kept-rid comparison, see Findings) |
| GlossaryFilter.AssetPass | library/glossary_filter_changes.py:151-161 | fails exactly when some asset has no rid; otherwise the count is the number kept and exactly the asset pass's removals are made (with the corrected kept-rid comparison, see Findings) |
| GlossaryFilter.RelationshipValuesKept | library/glossary_filter_changes.py:151-161 | removals made for earlier assets do not change which relationship values a later asset has |
| GlossaryFilter.AnyTermRefKept | library/glossary_filter_changes.py:164-169 | fails exactly when some term reference of the group has no rid; otherwise true exactly when one of them is kept (with the corrected kept-rid comparison, see Findings) |
| GlossaryFilter.ScanTermRefs | library/glossary_filter_changes.py:165-169 | the scan over the references fails exactly when some reference lacks a rid; otherwise it answers whether some reference's rid is kept (with the corrected kept-rid comparison, see Findings) |
| GlossaryFilter.TermRefsAll | library/glossary_filter_changes.py:165-169 | scanning every term reference of the group decides whether all have rids and whether one is kept (with the corrected kept-rid comparison, see Findings) |
| GlossaryFilter.FilterGroup | library/glossary_filter_changes.py:164-171 | fails exactly when a term reference lacks a rid; otherwise the group leaves exactly when none of its terms is kept (with the corrected kept-rid comparison, see Findings) |
| GlossaryFilter.FilterGroups | library/glossary_filter_changes.py:164-171 | the loop fails exactly when some group has a reference without a rid; otherwise exactly the groups with no kept term leave (with the corrected kept-rid comparison, see Findings) |
| GlossaryFilter.SynonymPass | library/glossary_filter_changes.py:163-171 | fails exactly when some attached synonym group has a reference without a rid; otherwise exactly the orphan groups leave (with the corrected kept-rid comparison, see Findings) |
| GlossaryFilter.DropSections | library/glossary_filter_changes.py:116-149 | the calls remove exactly the root's children with the given tags |
| GlossaryFilter.SelectAssets | library/glossary_filter_changes.py:114-149 | the type's assets are selected, each once, and exactly the other types' sections are dropped; an unknown type selects nothing |
| GlossaryFilter.Prepare | library/glossary_filter_changes.py:112-149 | the custom attribute definitions and exactly the other types' sections are dropped, and the type's assets are selected |
| GlossaryFilter.FilterSelected | library/glossary_filter_changes.py:151-171 | the asset pass and, for terms, the group pass, judged against the document before any section was dropped, give the outcome `FilterChanges` states (with the corrected kept-rid comparison, see Findings) |
| GlossaryFilter.TermGroups | library/glossary_filter_changes.py:163-171 | after the asset pass, a synonym group of the original document stays exactly when one of its terms is kept (with the corrected kept-rid comparison, see Findings) |
| GlossaryFilter.GroupRidsSurvive | library/glossary_filter_changes.py:163-171 | the group pass fails on the filtered document exactly when some group of the original document has a reference without a rid |
| GlossaryFilter.GroupOutcome | library/glossary_filter_changes.py:163-171 | for terms, a group stays exactly when one of its terms is kept (with the corrected kept-rid comparison, see Findings) |
| GlossaryFilter.GroupOutcomeOne | library/glossary_filter_changes.py:163-171 | one synonym group is detached exactly when none of its terms is kept, and otherwise keeps its parent (with the corrected kept-rid comparison, see Findings) |
| GlossaryFilter.AssetOutcome | library/glossary_filter_changes.py:151-171 | each of the type's assets stays exactly when its rid is kept (with the corrected kept-rid comparison, see Findings) |
| GlossaryFilter.KeptCountPruned | library/glossary_filter_changes.py:151-161 | the count of kept assets does not depend on the removals made before it |
| GlossaryFilter.SectionsStayEmpty | library/glossary_filter_changes.py:112-171 | sections once dropped stay dropped through the later passes |
| GlossaryFilter.FilterChanges | library/glossary_filter_changes.py:108-171 | fails exactly when an asset, or for terms a term reference, has no rid; otherwise exactly the elements of `FilterRemoves` leave their parents and nothing else changes: the definitions and the other sections, each asset whose rid is not kept, the relationship-valued custom attributes of each kept asset and, for terms, each synonym group none of whose terms is kept; the count is the number kept (with the corrected kept-rid comparison, see Findings) |
| GlossaryFilter.FilterRemovesExactly | library/glossary_filter_changes.py:112-171 | the section drops, the asset pass and the synonym-group pass together remove exactly `FilterRemoves` of the original document |
| IaHandler.IaDoc.constructor | module_utils/ia_handler.py:35-41 | the handler holds the parsed document, unchanged |
| IaHandler.IaDoc.ProjectName | module_utils/ia_handler.py:43-44 | the root's `name` attribute, absent exactly when the root has none |
| IaHandler.IaDoc.DataSources | module_utils/ia_handler.py:46-47 | exactly the `DataSources/DataSource` grandchildren of the root, each once |
| IaHandler.IaDoc.DefinitionsSection | module_utils/ia_handler.py:49-50 | exactly the root's `DataRuleDefinitions` children, each once |
| IaHandler.IaDoc.RuleDefinitions | module_utils/ia_handler.py:52-53 | exactly the `DataRuleDefinitions/DataRuleDefinition` grandchildren of the root, each once |
| IaHandler.IaDoc.RuleSetDefinitions | module_utils/ia_handler.py:55-56 | exactly the `DataRuleDefinitions/RuleSetDefinition` grandchildren of the root, each once |
| IaHandler.IaDoc.DataRules | module_utils/ia_handler.py:58-59 | exactly the `ExecutableRule` elements at any depth below the root, each once |
| IaHandler.IaDoc.MetricSection | module_utils/ia_handler.py:61-62 | exactly the root's `Metrics` children, each once |
| IaHandler.IaDoc.Metrics | module_utils/ia_handler.py:64-65 | exactly the `Metrics/Metric` grandchildren of the root, each once |
| IaHandler.IaDoc.Executables | module_utils/ia_handler.py:67-68 | exactly the definition's own `ExecutableRules/ExecutableRule` grandchildren, each once |
| IaHandler.IaDoc.GetName | module_utils/ia_handler.py:70-71 | the element's `name` attribute, absent exactly when it has none |
| IaHandler.IaDoc.DropAsset | module_utils/ia_handler.py:73-76 | the element leaves its parent, nothing else moves, and the result is marked changed |
| IaHandler.IaDoc.DropSection | module_utils/ia_handler.py:78-82 | exactly the root's children with the tag leave, none is left, and the result is marked changed exactly when one was there |
| IaHandler.ExecutablesAreDataRules | module_utils/ia_handler.py:58-68 | the executables a definition holds directly are among the data rules found at any depth |
| IaExtract.NamesOfType | library/ia_extract_project.py:177-188 | a name is in a type's keep list exactly when some entry of that type carries it |
| IaExtract.GroupAsWritten | library/ia_extract_project.py:177-188 | the grouping as written succeeds only on an empty keep list, since the attribute access fails on the first dictionary entry |
| IaExtract.DocumentedKeepListRejected | library/ia_extract_project.py:177-188 | one dictionary entry of the `data_rule` type the code tests for stops the grouping as written, while reading the entry's keys keeps the rule's name |
| IaExtract.ExampleKeepListGroupsNothing | library/ia_extract_project.py:99-100 | the module's own example entries, typed by element path, are readable but match none of the five types, so the grouping asks for nothing |
| IaExtract.Group | library/ia_extract_project.py:177-188 | fails exactly when some entry lacks a readable `type` or `name`; otherwise each entry's name goes to the list of its type, in order, and entries of other types are skipped |
| IaExtract.ExecutablesUpToZero | library/ia_extract_project.py:205-206 | a definition's executable count is zero exactly when it has no direct executable |
| IaExtract.PruneOne | library/ia_extract_project.py:191-215 | the element leaves exactly when its name is not kept and, in the definition loops, it has no executables; the result is then marked changed |
| IaExtract.PrunePass | library/ia_extract_project.py:191-215 | one walk over the selected elements removes exactly the elements that go and counts exactly the others |
| IaExtract.KeptExecutableKeepsDefinition | library/ia_extract_project.py:190-215 | no definition holding a kept executable is removed, nor that executable: pruning never leaves a kept data rule without its definition |
| IaExtract.StageSets | library/ia_extract_project.py:190-215 | what each loop removes and keeps equals the assets of its kind that go and stay, read on the retrieved project |
| IaExtract.ExecutablesLeft | library/ia_extract_project.py:203-215 | after the executable loop, a definition has no executables left exactly when none of its executables was kept |
| IaExtract.DefinitionDecisions | library/ia_extract_project.py:203-215 | after the earlier loops, each definition loop's decision reads as whether the definition goes on the retrieved project |
| IaExtract.NameStage | library/ia_extract_project.py:191-201 | the executable loop, or the metric loop after it, removes exactly the unkept assets of its kind and counts the kept ones |
| IaExtract.DefinitionStage | library/ia_extract_project.py:204-215 | a definition loop removes exactly the definitions whose name is not kept and none of whose executables is kept, and counts the others |
| IaExtract.DefinitionsReady | library/ia_extract_project.py:204-215 | after the earlier loops, pruning the selected definitions removes exactly the unkept definitions with no kept executable and keeps the others |
| IaExtract.Prune | library/ia_extract_project.py:190-215 | the four loops remove exactly the assets that go and nothing else; the count is the number of data rules, metrics, rule definitions and rule set definitions that stay |
| IaExtract.NameStages | library/ia_extract_project.py:190-201 | the executable and metric loops together remove exactly the unkept data rules and metrics and count the kept ones (keep entries read as mappings, as corrected under Findings) |
| IaExtract.DefinitionStages | library/ia_extract_project.py:204-215 | after those loops, the two definition loops remove exactly the definitions that go and count the others (keep entries read as mappings, as corrected under Findings) |
| IaExtract.Extract | library/ia_extract_project.py:168-215 | fails, removing nothing, exactly when a keep entry cannot be read; otherwise the project is pruned as `Prune` states for the grouped keep lists and the count is returned (keep entries read as mappings, as corrected under Findings) |
| CustomAttrHandler.Texts | module_utils/customattr_handler.py:54-55 | a text is among the results exactly when one of the elements carries it, and there are no more texts than elements |
| CustomAttrHandler.Seeds | module_utils/customattr_handler.py:54-55 | a text is a seed rid exactly when some `AssetDataDescriptor/seedObjectRids` element of the root carries it |
| CustomAttrHandler.RootClasses | module_utils/customattr_handler.py:48-49 | exactly the root's class descriptors, each once |
| CustomAttrHandler.Definitions | module_utils/customattr_handler.py:63-67 | fails exactly when there is no seed rid or no root class has the first seed rid as its repository id; otherwise the `has_CustomAttribute` children of the first such class |
| CustomAttrHandler.TrimIdsMeaning | module_utils/customattr_handler.py:115-133 | reading a trimmed attribute back gives exactly the kept ids in their original order; the attribute stays exactly when one is kept; no other attribute changes |
| CustomAttrHandler.TrimmedMeaning | module_utils/customattr_handler.py:115-133 | both back-reference lists of a retained class list exactly its kept definitions, in order, and every other attribute is untouched |
| CustomAttrHandler.DefinitionsStay | module_utils/customattr_handler.py:104-139 | the cleanup removes only classes and enumerations: every definition stays where it was with its attributes |
| CustomAttrHandler.ClassesSelected | module_utils/customattr_handler.py:107-133 | the class loop walks exactly the root's classes, so it removes exactly the unkept classes and trims exactly the kept ones (for elements carrying an `xmi:id`, see Left out) |
| CustomAttrHandler.EnumsSelected | module_utils/customattr_handler.py:135-139 | after the class loop the root's enumerations are those of the start, untouched, and the loop removes exactly the unkept ones (for elements carrying an `xmi:id`, see Left out) |
| CustomAttrHandler.CustomAttrs.constructor | module_utils/customattr_handler.py:37-46 | the handler holds the parsed document, unchanged, with three empty keep lists |
| CustomAttrHandler.CustomAttrs.ClassDescriptors | module_utils/customattr_handler.py:48-49 | exactly the root's `ClassDescriptor` children, each once |
| CustomAttrHandler.CustomAttrs.ValidEnumerations | module_utils/customattr_handler.py:51-52 | exactly the root's `ValidEnumeration` children, each once |
| CustomAttrHandler.CustomAttrs.ElementId | module_utils/customattr_handler.py:60-61 | the `xmi:id` attribute, failing exactly when it is absent |
| CustomAttrHandler.CustomAttrs.DefinitionName | module_utils/customattr_handler.py:88-89 | the `name` attribute, absent exactly when the element has none |
| CustomAttrHandler.CustomAttrs.DefinitionType | module_utils/customattr_handler.py:91-92 | the `dataType` attribute, absent exactly when the element has none |
| CustomAttrHandler.CustomAttrs.CustomAttributeDefinitions | module_utils/customattr_handler.py:63-67 | the definitions `Definitions` describes |
| CustomAttrHandler.CustomAttrs.KeepClassIds | module_utils/customattr_handler.py:69-77 | every id the source or target attribute lists joins the class keep list, in order; nothing else changes |
| CustomAttrHandler.CustomAttrs.KeepEnumIds | module_utils/customattr_handler.py:79-82 | every id `has_ValidValues` lists joins the enumeration keep list, in order; nothing else changes |
| CustomAttrHandler.CustomAttrs.KeepDefinition | module_utils/customattr_handler.py:94-98 | fails, recording nothing, exactly when the definition has no `xmi:id`; otherwise its id, its source and target classes and its enumerations join the keep lists |
| CustomAttrHandler.CustomAttrs.DropDefinition | module_utils/customattr_handler.py:100-102 | the element leaves its parent and nothing else changes |
| CustomAttrHandler.CustomAttrs.TrimReferences | module_utils/customattr_handler.py:115-133 | one back-reference attribute of a class is trimmed to the kept definitions; no other element or attribute changes |
| CustomAttrHandler.CustomAttrs.ClassTurn | module_utils/customattr_handler.py:108-133 | an unkept class leaves the root and the result is marked changed; a kept one has both back-reference lists trimmed (for elements carrying an `xmi:id`, see Left out) |
| CustomAttrHandler.CustomAttrs.EnumTurn | module_utils/customattr_handler.py:136-139 | an unkept enumeration leaves the root and the result is marked changed (for elements carrying an `xmi:id`, see Left out) |
| CustomAttrHandler.CustomAttrs.ClassPass | module_utils/customattr_handler.py:107-133 | the class loop removes exactly the unkept classes, trims exactly the kept ones, and marks the result changed exactly when it removed one (for elements carrying an `xmi:id`, see Left out) |
| CustomAttrHandler.CustomAttrs.EnumPass | module_utils/customattr_handler.py:135-139 | the enumeration loop removes exactly the unkept enumerations and marks the result changed exactly when it removed one (for elements carrying an `xmi:id`, see Left out) |
| CustomAttrHandler.CustomAttrs.DropUnusedPieces | module_utils/customattr_handler.py:104-139 | the root's unkept classes and enumerations are removed, every kept class has its back references trimmed, nothing else changes, and the result is marked changed exactly when something was removed |
| CustomAttrHandler.CustomAttrs.WriteCustomizedXml | module_utils/customattr_handler.py:141-143 | the cleanup always runs before the document is written |
| CustomAttrChanges.Selected | library/customattr_get_changes.py:149-160 | a definition is kept exactly when it is walked and its time lies in the window and, when names are given, its name is among them |
| CustomAttrChanges.NamesOf | library/customattr_get_changes.py:154-159 | one name per kept definition, in order, absent for a definition without a name |
| CustomAttrChanges.IdsOfLength | library/customattr_get_changes.py:156-160 | when every kept definition has an `xmi:id`, there is one kept id per kept definition |
| CustomAttrChanges.RefsKept | library/customattr_get_changes.py:156-160 | every class and enumeration a kept definition refers to is in the class and enumeration keep lists, and its own id is in the definition keep list |
| CustomAttrChanges.Walked | library/customattr_get_changes.py:149 | the definitions walked are those the handler finds, when it finds them |
| CustomAttrChanges.Consider | library/customattr_get_changes.py:150-160 | one turn fails exactly when the definition is wanted and has no `xmi:id`; otherwise the count, names and keep lists are those of the selection one definition further |
| CustomAttrChanges.KeepWanted | library/customattr_get_changes.py:149-160 | the loop fails exactly when some wanted definition lacks an `xmi:id`; otherwise the count, names and keep lists are those of the wanted definitions; the document is not touched |
| CustomAttrChanges.Unidentified | library/customattr_get_changes.py:156-160 | a wanted definition without an id means the selection is not fully identified |
| CustomAttrChanges.Report | library/customattr_get_changes.py:161-162 | the count and names are those of the kept definitions, and the export is pruned to the classes and enumerations they use, with the result marked changed exactly when something was removed |
| CustomAttrChanges.GetChanges | library/customattr_get_changes.py:147-162 | fails exactly when the definitions cannot be found or a wanted definition has no `xmi:id`; otherwise reports the wanted definitions and the pruned export as `Report` states |
| OmdHandler.HostElement | module_utils/omd_handler.py:49-50 | `find` of the `Computer` component: a host found is the first component of the element, in document order, whose class is `Computer`; there is none exactly when no component of the element has that class |
| OmdHandler.ComponentName | module_utils/omd_handler.py:68-81 | fails exactly when the element has no component with the attribute value; otherwise that component's `Name` |
| OmdHandler.DeploymentHost | module_utils/omd_handler.py:107-108 | the deployment's host is a `Computer` component of a deployment locator; without a deployment locator the lookup fails |
| OmdHandler.DeploymentHostExactly | module_utils/omd_handler.py:107-108 | the deployment host is the `Computer` component (`HostElement`) of the first deployment locator; the lookup fails exactly when there is no deployment locator or that locator has no `Computer` component |
| OmdHandler.EventFirst | module_utils/omd_handler.py:52-56 | `find` of the event of a type: the event found is the first event of the flow, in document order, with that `Type`; there is none exactly when no event has that type |
| OmdHandler.EventHost | module_utils/omd_handler.py:130-131 | an event's host is a component below a data resource of the first event of the type; without that event the lookup fails |
| OmdHandler.EventHostExactly | module_utils/omd_handler.py:130-131 | the event host is the `Computer` component (`HostElement`) of the first data resource of the first event of the type; the lookup fails exactly when there is no such event, the event has no data resource, or that resource has no `Computer` component |
| OmdHandler.Parameters | module_utils/omd_handler.py:113 | the flow's actual parameters, each once |
| OmdHandler.LocateParam | module_utils/omd_handler.py:114-125 | a located parameter's host is a `Computer` component of one of its locators; its formal name is the `Name` of the first `FormalParameter` component below its locators (`FormalComponent`); a connection-string parameter's host has a name and the parameter a value |
| OmdHandler.FormalComponent | module_utils/omd_handler.py:115 | `find` of the formal parameter: the first component below the parameter's locators, in document order, whose class is `FormalParameter`; none exactly when no such component has that class |
| OmdHandler.LocateParamHost | module_utils/omd_handler.py:114 | a located parameter's host is the `Computer` component (`HostElement`) of its first locator |
| OmdHandler.LocateParamFails | module_utils/omd_handler.py:114-125 | locating a parameter fails exactly when it has no locator, no `FormalParameter` component, no `Computer` component in its first locator, or is a connection string whose host has no name or which has no value |
| OmdHandler.LocateAll | module_utils/omd_handler.py:113-129 | when every parameter is located, one location per parameter, each located |
| OmdHandler.LocateAllAt | module_utils/omd_handler.py:113-129 | the located parameters are each parameter's location, in order |
| OmdHandler.Locate | module_utils/omd_handler.py:107-136 | the flow is located exactly when the deployment host, every parameter and both event hosts are, and then consists of them |
| OmdHandler.Renamed | module_utils/omd_handler.py:105-139 | a host is renamed exactly when it is the deployment host named otherwise than the target, or a parameter, read or write host named like the deployment host |
| OmdHandler.HostnameResult | module_utils/omd_handler.py:105-139 | the deployment host, the parameter loop and the event hosts together rewrite the flow to the renamed hosts and new values, count the renames, save the connection strings, and mark the result changed exactly when a parameter is a connection string |
| OmdHandler.LocatedHostsApart | module_utils/omd_handler.py:107-136 | the hosts of a located flow are distinct elements: the deployment's, each parameter's, the read event's and the write event's |
| OmdHandler.ReplacementsCounted | module_utils/omd_handler.py:105-139 | the replacement count equals the number of hosts renamed: each rename is counted exactly once |
| OmdHandler.CountedApart | module_utils/omd_handler.py:105-139 | with the hosts apart, each rename counted is a different host |
| OmdHandler.MatchingApart | module_utils/omd_handler.py:115-129 | parameters with distinct hosts rename each host at most once |
| OmdHandler.RewriteWellFormed | module_utils/omd_handler.py:105-139 | the rewrite changes only attributes, so the flow stays a tree |
| OmdHandler.SavedLast | module_utils/omd_handler.py:121-125 | a saved connection string is the old value of the last parameter naming that formal parameter |
| OmdHandler.DataResourceStore | module_utils/omd_handler.py:71-75 | the data store's name, or the connection string when that name is blank; a missing store or name fails |
| OmdHandler.IdentitySplit | module_utils/omd_handler.py:83-88 | an identity splits back on colons into host, store, schema and table, with empty parts between them, when none of them holds a colon |
| OmdHandler.IdentityJoin | module_utils/omd_handler.py:83-88 | joining host, store, schema and table, with an empty part between each two, by single colons gives the identity: the double colons of the source |
| OmdHandler.IdentityInjective | module_utils/omd_handler.py:83-88 | resources whose parts hold no colon share an identity only when they agree on host, store, schema and table |
| OmdHandler.DataResourceIdentity | module_utils/omd_handler.py:83-88 | the identity is built from the host, the store, the schema and the table, and fails exactly when one of them is missing |
| OmdHandler.DataCollection | module_utils/omd_handler.py:64-66 | without a locator on the event the lookup fails; a collection found is the one of the schema whose `Ident` is the locator's reference |
| OmdHandler.Columns | module_utils/omd_handler.py:90-94 | the `Name` of each data field of the collection, in document order |
| OmdHandler.DesignNameOf | module_utils/omd_handler.py:96-100 | the name is the `Name` of `DesignComponent`, and the lookup fails exactly when there is no such component |
| OmdHandler.DesignComponentFirst | module_utils/omd_handler.py:96-100 | the design component of a sub-class is the first design locator component, in document order, with that `SubClass`; there is none exactly when no design locator component has it |
| OmdHandler.DesignNameFound | module_utils/omd_handler.py:96-100 | a name found is that of a component of the asked sub-class below a design locator |
| OmdHandler.EventSide | module_utils/omd_handler.py:141-152 | one side of the run needs its saved connection string and the event, and is the identity of the event's first data resource with the columns of its collection |
| OmdHandler.RuntimeIdentityOf | module_utils/omd_handler.py:141-152 | defined exactly when the project, the job and both sides can be read and both connection strings were saved; then made of the project, the job and both sides |
| OmdHandler.Omd.constructor | module_utils/omd_handler.py:27-32 | the handler holds the parsed flow, with nothing saved, no replacement and no change |
| OmdHandler.Omd.OriginalHost | module_utils/omd_handler.py:102-103 | fails exactly when no host was saved; otherwise the saved host |
| OmdHandler.Omd.ReplaceHostname | module_utils/omd_handler.py:105-139 | fails exactly when the flow cannot be located; otherwise the flow is rewritten as `Renamed` and the new values say, the count grows by the renames, the connection strings are saved, and the result is changed exactly when a parameter is a connection string |
| OmdHandler.Omd.RenameDeploymentHost | module_utils/omd_handler.py:107-112 | the deployment host's name is saved; the host is renamed and counted exactly when it is not already named like the target |
| OmdHandler.Omd.RenameEventHosts | module_utils/omd_handler.py:130-139 | fails exactly when an event host cannot be found; otherwise the read and then the write host are renamed and counted exactly when named like the deployment host |
| OmdHandler.Omd.RenameIfNamed | module_utils/omd_handler.py:132-134 | the host is renamed and counted exactly when its name equals the deployment host's |
| OmdHandler.Omd.ReplaceInParams | module_utils/omd_handler.py:113-129 | fails exactly when some parameter cannot be located; otherwise every parameter's host and value are rewritten, counted and saved as the folds over the located parameters say |
| OmdHandler.Omd.ParamStep | module_utils/omd_handler.py:114-129 | one parameter is located and rewritten, extending the located list by it, or the whole loop fails |
| OmdHandler.Omd.ParamTurn | module_utils/omd_handler.py:115-129 | the parameter's host is renamed and counted when named like the deployment host, and a connection-string parameter gets the host's name, two underscores and its old value, with the old value saved |
| OmdHandler.Omd.DataCollectionColumns | module_utils/omd_handler.py:90-94 | the columns built by appending are those `Columns` states |
| OmdHandler.Omd.RuntimeSide | module_utils/omd_handler.py:147-150 | one event's side, failing exactly when the lookups `EventSide` makes fail |
| OmdHandler.Omd.UniqueRuntimeIdentity | module_utils/omd_handler.py:141-152 | the identity `RuntimeIdentityOf` states |
| OpenIgcHandler.Assets | module_utils/openigc_handler.py:43-44 | exactly the `asset` elements directly below `assets` below the root, each once |
| OpenIgcHandler.RidAsWritten | module_utils/openigc_handler.py:46-48 | fails exactly when the asset has no `ID`; otherwise the `ID` is its first two characters followed by the result |
| OpenIgcHandler.Rid | module_utils/openigc_handler.py:46-48 | fails exactly when the asset has no `ID`; otherwise the `ID` with its `ID_` prefix removed |
| OpenIgcHandler.WithId | module_utils/openigc_handler.py:50-51 | exactly the elements of the selection whose `ID` is the one asked for, each once |
| OpenIgcHandler.AssetById | module_utils/openigc_handler.py:50-51 | fails exactly when the rid holds a quote; otherwise exactly the assets whose `ID` is `ID_` followed by the rid, each once |
| OpenIgcHandler.RidRoundTrip | module_utils/openigc_handler.py:46-51 | for an asset whose `ID` is `ID_` and a rid without quotes, the corrected rid is that rid and looking it up finds the asset |
| OpenIgcHandler.RidAsWrittenMissesAsset | module_utils/openigc_handler.py:46-51 | the rid as written of such an asset is `_` and the rid, and looking that up does not find the asset |
| OpenIgcHandler.ReferencedAsset | module_utils/openigc_handler.py:53-58 | every call fails, because line 54 asks a list for an attribute |
| OpenIgcHandler.AncestralFrom | module_utils/openigc_handler.py:60-65 | succeeds, with no rids, exactly when there is no referenced parent; a parent reaches the undefined function of line 63; a failed lookup propagates |
| OpenIgcHandler.AncestralAssetRids | module_utils/openigc_handler.py:60-65 | every call fails with the error of line 54 |
| OpenIgcHandler.AssetChildrenRids | module_utils/openigc_handler.py:67-72 | every call fails, because the path of line 69 never closes its predicate |
| OpenIgcHandler.ParentRids | module_utils/openigc_handler.py:70-72 | succeeds exactly when every reference's parent has an `ID`; then one rid per reference, in order, each its parent's rid |
| OpenIgcHandler.OpenIgcDoc.constructor | module_utils/openigc_handler.py:35-41 | the handler holds the parsed document, unchanged |
| OpenIgcHandler.OpenIgcDoc.DropAsset | module_utils/openigc_handler.py:74-77 | the element leaves its parent, the document stays a tree, the result is marked changed, and nothing else changes |
| OpenIgcHandler.OpenIgcDoc.CollectParentRids | module_utils/openigc_handler.py:68-72 | the loop collects the rids `ParentRids` states, stopping at the first parent without `ID` |
| OpenIgcExtract.AncestorsAsWritten | library/igc_extract_openigc_assets.py:184 | the ancestors lookup as written fails whatever the rid, naming the variable not yet bound |
| OpenIgcExtract.Turn | library/igc_extract_openigc_assets.py:182-191 | one turn succeeds exactly when both lookups do; the rid is appended, and what is kept afterwards is what was kept plus the rid, its ancestors and its children |
| OpenIgcExtract.AddTwice | library/igc_extract_openigc_assets.py:185-191 | appending the new ancestors and then the new children keeps the list in front and adds each new element once |
| OpenIgcExtract.ClosureOk | library/igc_extract_openigc_assets.py:182-191 | the keep list is built exactly when every lookup for every requested rid succeeds |
| OpenIgcExtract.ClosureMembers | library/igc_extract_openigc_assets.py:182-191 | the keep list holds exactly the requested rids, their ancestors and their children |
| OpenIgcExtract.ClosureExtends | library/igc_extract_openigc_assets.py:182-191 | more requested rids only extend the keep list, never shrink or reorder it |
| OpenIgcExtract.ClosureKeepsRepeats | library/igc_extract_openigc_assets.py:182-183 | each requested rid is kept at least as often as it was requested, since it is appended without a membership test |
| OpenIgcExtract.ClosureAsWrittenFails | library/igc_extract_openigc_assets.py:182-184 | with line 184 as written every non-empty request fails |
| OpenIgcExtract.ClosureStopsAt | library/igc_extract_openigc_assets.py:182-191 | a lookup failing part-way fails the whole loop with that failure |
| OpenIgcExtract.AppendAbsent | library/igc_extract_openigc_assets.py:185-191 | the list grows by the elements not yet in it, as `AddNew` states |
| OpenIgcExtract.KeepClosure | library/igc_extract_openigc_assets.py:179-191 | the loop builds the keep list `Closure` states, or fails as it does |
| OpenIgcExtract.DropSet | library/igc_extract_openigc_assets.py:193-196 | exactly the assets whose rid is not kept (with the corrected three-character rid, see Findings) |
| OpenIgcExtract.KeptAmong | library/igc_extract_openigc_assets.py:193-198 | exactly the assets whose rid is kept (with the corrected three-character rid, see Findings) |
| OpenIgcExtract.DropKeptPartition | library/igc_extract_openigc_assets.py:193-198 | every asset with an `ID` is either dropped or counted, so the two numbers add up to the number of assets handled |
| OpenIgcExtract.DropTurn | library/igc_extract_openigc_assets.py:194-198 | an asset is dropped exactly when its rid is not kept, and the result becomes changed when it is (rids with the three-character prefix dropped, as corrected under Findings) |
| OpenIgcExtract.DropEach | library/igc_extract_openigc_assets.py:193-198 | the pass succeeds exactly when every asset has an `ID`; then exactly the unkept assets are detached and the kept ones counted; otherwise it stops at the first asset without `ID` (rids with the three-character prefix dropped, as corrected under Findings) |
| OpenIgcExtract.DropEachTurn | library/igc_extract_openigc_assets.py:194-198 | one turn of the pass: an asset without `ID` stops it with the tree unchanged; any other asset is detached exactly when its rid is not kept, and counted otherwise (rids with the three-character prefix dropped, as corrected under Findings) |
| OpenIgcExtract.DropUnkept | library/igc_extract_openigc_assets.py:193-198 | over the assets of the bundle: exactly the unkept assets leave the tree, the kept ones are counted, and nothing else changes (rids with the three-character prefix dropped, as corrected under Findings) |
| OpenIgcExtract.Extract | library/igc_extract_openigc_assets.py:179-198 | the keep list is built first; if it cannot be, the bundle is unchanged; otherwise the drop pass runs over it: it fails with the missing-`ID` error exactly when some asset lacks an `ID`, and on success detaches exactly the assets the keep list does not reach and marks the bundle changed exactly when it detached one (the closure of the requested rids and rids with the three-character prefix dropped, both as corrected under Findings) |
| OpenIgcExtract.ReachedSurvives | library/igc_extract_openigc_assets.py:179-198 | an asset whose rid was requested, or is an ancestor or child of one, is never dropped and is counted (the closure of the requested rids and rids with the three-character prefix dropped, both as corrected under Findings) |
| OpenIgcLoad.Partition | library/igc_load_openigc_assets.py:170-176 | succeeds exactly when every asset has an `ID`; then every asset's rid lands in one of the two lists (rids with the three-character prefix dropped, as corrected under Findings) |
| OpenIgcLoad.Sort | library/igc_load_openigc_assets.py:171-176 | an asset with an `ID` adds its rid to the complete list when its type is listed and to the partial list otherwise (rids with the three-character prefix dropped, as corrected under Findings) |
| OpenIgcLoad.Picks | library/igc_load_openigc_assets.py:173 | the positions, in increasing order, of exactly the assets whose completeness is the one asked for |
| OpenIgcLoad.RidsAt | library/igc_load_openigc_assets.py:171 | the rid of each asset at the given positions, in order (with the corrected three-character rid, see Findings) |
| OpenIgcLoad.PartitionByPicks | library/igc_load_openigc_assets.py:170-176 | the partial list is the rids of exactly the assets whose type is not listed and the complete list those whose type is, each in document order (with the corrected three-character rid, see Findings) |
| OpenIgcLoad.NoCompleteTypes | library/igc_load_openigc_assets.py:122-176 | with no complete types every asset is partial, in document order (with the corrected three-character rid, see Findings) |
| OpenIgcLoad.PartitionEach | library/igc_load_openigc_assets.py:170-176 | the loop builds the lists `Partition` states (rids with the three-character prefix dropped, as corrected under Findings) |
| OpenIgcLoad.PartitionAssets | library/igc_load_openigc_assets.py:170-176 | over the bundle's assets, the lists `Partition` states (rids with the three-character prefix dropped, as corrected under Findings) |
| OpenIgcLoad.Load | library/igc_load_openigc_assets.py:167-191 | succeeds exactly when the split succeeds and the upload answers; then the result is changed and carries the answer and both lists; without an answer the upload failure is reported (rids with the three-character prefix dropped, as corrected under Findings) |
| MergeRelationships.KeyOfSomeAsset | library/igc_merge_relationships.py:157-161 | a key is among the asset keys exactly when some asset has it |
| MergeRelationships.DedupKeys | library/igc_merge_relationships.py:157-161 | the asset keys without repeats hold each key once, and exactly the keys some asset has |
| MergeRelationships.MemberLastWins | library/igc_merge_relationships.py:162-178 | a non-list member that is the last of its name in the asset sets the merged value |
| MergeRelationships.RelationTracked | library/igc_merge_relationships.py:171-176 | one more relation is appended, and its key recorded, exactly when that key was not recorded for the asset and property |
| MergeRelationships.PropertyTracked | library/igc_merge_relationships.py:164-176 | merging a list member adds to the recorded keys exactly those of its relations not yet seen, in order |
| OmdHandler.Matching | module_utils/omd_handler.py:127-129 | exactly the parameter hosts named like the deployment host, in parameter order |
| OmdHandler.NewValues | module_utils/omd_handler.py:121-125 | exactly the connection-string parameters get a new value |
| OmdHandler.Saved | module_utils/omd_handler.py:121-124 | the saved values gain exactly the connection-string formal parameters met, and keep every other saved key |
| RestModel.GetProp | library/igc_extract_relationships.py:295 | a property is found exactly when some entry has the key |
| RestModel.SetProp | library/igc_extract_relationships.py:295 | after the assignment the key reads the new value and every other key reads as before |

## Left out

- File, temporary-file and checksum I/O: the `sha1`/`atomic_move` blocks, `etree.parse`, `tree.write` and `tostring`. Documents are in-memory arenas, and writing them is not modelled.
- Ansible check mode, argument parsing and the `exit_json`/`fail_json` shell. A module failure is an `Err` result.
- HTTP sessions, authentication, URL building and `closeSession`. The backend is a parameter.
- `get_mapped_value`, `get_mapped_identity`, `is_simple_native_relationship` and `is_supported_by_import_asset_values` are not defined in `module_utils/infosvr_types.py`. They are function parameters with no regular-expression semantics.
- JSON key order: merge keys compare mapped identities structurally, where the source compares `json.dumps` strings.
- Records may repeat a key in the model, which a Python dict cannot. Lookups read the first occurrence.
- The REPLACE_SOME payload is a set of rids, as in the source. Its JSON encoding is not modelled.
- The bulk branch of `getMappedItem` is modelled up to the cache fill and then as an error. Past that point the source reads a cache that is never created, or a `where` key that the bulk query lacks.
- `library/igc_extract_openigc_assets.py:150` uses `RestIGC` without importing it. The retrieval of the assets (`getOpenIGCAssets`) is not part of this model: the extract starts from the parsed bundle.
- `library/igc_extract_openigc_bundle.py`, `library/igc_query.py`, `library/omd_replace_for_target.py`, `library/omd_get_changes.py`, `library/igc_load_relationships.py`, `library/ia_load_project.py` and `module_utils/ia_rest.py` are not part of this model. They are entry points, directory scans or transport code, or they call methods that do not exist.
- In the OpenIGC load, `getType`, `setImportActionPartials`/`setImportActionCompletes` and `uploadOpenIGCAssets` are not in the handler source. Asset types and the upload answer are parameters. The serialisation at lines 181-183 is not modelled.
- OpenIgcHandler.AssetById: a rid holding a quote is modelled as an error. The source splices it into the XPath, where a rid such as `x' or '1'='1` selects every asset and the first is returned.
- OpenIgcExtract.KeepClosure: the ancestor and child lookups are parameters. In the source both crash (`module_utils/openigc_handler.py:54`, `:63`, `:69`), and the closure is stated for whatever they answer.
- OpenIgcHandler.OpenIgcDoc.CollectParentRids: it runs over a given list of references, since the XPath at line 69 that selects them is malformed.
- `library/ia_extract_project.py:169` passes XML text to `etree.parse`. The model starts from the parsed project.
- `library/customattr_get_changes.py:147` calls the handler constructor with four arguments where it takes three. The selection loop runs on a handler already built.
- Modification times are given integers. `getDefinitionModTime` parses timestamps with floats and is not modelled.
- The `ca_dropped`, `ca_dropped_classes` and `ca_dropped_enums` result lists are not modelled: the source never fills them.
- CustomAttrHandler.CustomAttrs.DropUnusedPieces: requires every class and enumeration to carry an `xmi:id`. The source reads it with `[0]` and raises otherwise.
- CustomAttrHandler.CustomAttrs.WriteCustomizedXml: requires every class and enumeration to carry an `xmi:id`, as `DropUnusedPieces` does.
- CustomAttrChanges.GetChanges: requires every class and enumeration to carry an `xmi:id`, for the cleanup it ends with.
- CustomAttrChanges.Report: requires every class and enumeration to carry an `xmi:id`, for the same reason.
- OmdHandler.Omd.ReplaceHostname: on failure only the well-formedness of the flow is stated. The source leaves the flow renamed part-way, and its caller writes nothing.
- The OMD lookups read the flow as it was at the start of `replaceHostname`. The method writes only names and values, and the hosts it writes are shown to be distinct elements.
- `writeCustomizedOMD` and the run-status getters of `module_utils/omd_handler.py` are not modelled: they are serialisation.
- In the CSV conversion an empty asset list is an error. The source then writes the file with `asset_name` unbound (a `NameError`).
- Comparing draft with published assets, and returning assets to draft before an update, have no source here and are not modelled.
- IgcRest.ReconcileReplaceSome: follows the source's partial replace. When the replacement search hits, it sends the existing ids minus the hits and drops `to_asset_rids`; a replace that also adds them is not modelled.
- IgcRest.ReplaceSomeOutcome: states that same removal-only replace, with `to_asset_rids` dropped when the replacement search hits.
- ExtractRelationships.ResolveRelations: the context caches hold values. The source minifies a context taken from the bulk cache in place (`library/igc_extract_relationships.py:303-308`, `:351-353`), so the cached entries lose their `_id`. A second relation with the same bulk-cached rid then raises `KeyError: '_id'`, where the model succeeds again.
- ExtractRelationships.ExtractProperty: resolves through `ResolveRelations`, so it has the same gap for a repeated bulk-cached rid. It also deletes the unwanted relations as intended, not as written (see Findings).
- ExtractRelationships.ExtractItem: the same repeated-rid gap and the intended deletion, through `ExtractProperty`.
- ExtractRelationships.ExtractAll: the same repeated-rid gap, which here also spans assets, and the intended deletion.
- ExtractRelationships.Run: the same repeated-rid gap and the intended deletion, through `ExtractAll`.
- GlossaryFilter.FilterSelected: compares rids with the corrected kept-rid comparison (see Findings), not the one at `library/glossary_filter_changes.py:153`.
- GlossaryFilter.AssetOutcome: states the outcome under the corrected kept-rid comparison.
- GlossaryFilter.FilterChanges: states the outcome under the corrected kept-rid comparison.
- IaExtract.NameStages: reads the keep entries as mappings, as corrected under Findings, where the source's attribute reads fail.
- IaExtract.DefinitionStages: reads the keep entries as mappings, as corrected under Findings.
- IaExtract.Extract: reads the keep entries as mappings, as corrected under Findings.
- OpenIgcExtract.DropTurn: reads rids with the three-character prefix dropped, as corrected under Findings. The source calls the two-character `getRid` at `library/igc_extract_openigc_assets.py:194`.
- OpenIgcExtract.DropEach: the corrected rids, through `DropTurn`.
- OpenIgcExtract.DropEachTurn: the corrected rids, through `DropTurn`.
- OpenIgcExtract.DropUnkept: the corrected rids, through `DropEach`.
- OpenIgcExtract.Extract: the corrected rids, and the ancestors asked of the requested rid (both under Findings).
- OpenIgcExtract.ReachedSurvives: states survival under the corrected rids and closure.
- OpenIgcLoad.Partition: reads rids with the three-character prefix dropped, as corrected under Findings. The source calls the two-character `getRid` at `library/igc_load_openigc_assets.py:171`.
- OpenIgcLoad.Sort: the corrected rids, as in `Partition`.
- OpenIgcLoad.PartitionEach: the corrected rids, as in `Partition`.
- OpenIgcLoad.PartitionAssets: the corrected rids, as in `Partition`.
- OpenIgcLoad.Load: the corrected rids, as in `Partition`.
- IgcWorkflow.Moves: states the corrected ALL-mode moves, where the APPROVED move gets the APPROVED bucket. The source passes `waiting_assets` (`library/igc_workflow.py:334-342`, see Findings).
- IgcWorkflow.WorkflowRun.MoveAll: records the corrected ALL-mode moves of `Moves`, not the misrouted APPROVED move.
- IgcWorkflow.WorkflowRun.Run: bucketed runs move as the corrected `Moves` say, not as written.
- GlossaryFilter.AssetPassRemovesAssets: states the removal under the corrected kept-rid comparison, not the raw membership test at `library/glossary_filter_changes.py:153`.
- GlossaryFilter.FilterAsset: the corrected kept-rid comparison, not the test at line 153.
- GlossaryFilter.AssetPass: the corrected kept-rid comparison, not the test at line 153.
- GlossaryFilter.AnyTermRefKept: the corrected kept-rid comparison, not the raw membership test at `library/glossary_filter_changes.py:168`.
- GlossaryFilter.ScanTermRefs: the corrected kept-rid comparison, not the test at line 168.
- GlossaryFilter.TermRefsAll: the corrected kept-rid comparison, not the test at line 168.
- GlossaryFilter.FilterGroup: the corrected kept-rid comparison, not the test at line 168.
- GlossaryFilter.FilterGroups: the corrected kept-rid comparison, not the test at line 168.
- GlossaryFilter.SynonymPass: the corrected kept-rid comparison, not the test at line 168.
- GlossaryFilter.TermGroups: the corrected kept-rid comparison, not the test at line 168.
- GlossaryFilter.GroupOutcome: the corrected kept-rid comparison, not the test at line 168.
- GlossaryFilter.GroupOutcomeOne: the corrected kept-rid comparison, not the test at line 168.
- CustomAttrHandler.ClassesSelected: requires every class to carry an `xmi:id`. The source reads it with `[0]` and raises `IndexError` otherwise (`module_utils/customattr_handler.py:107-133`); that failure is not modelled.
- CustomAttrHandler.EnumsSelected: requires every enumeration to carry an `xmi:id`; the source's `IndexError` (lines 135-139) is not modelled.
- CustomAttrHandler.CustomAttrs.ClassTurn: requires the class to carry an `xmi:id`; the source's `IndexError` is not modelled.
- CustomAttrHandler.CustomAttrs.EnumTurn: requires the enumeration to carry an `xmi:id`; the source's `IndexError` is not modelled.
- CustomAttrHandler.CustomAttrs.ClassPass: requires every class to carry an `xmi:id`; the source's `IndexError` is not modelled.
- CustomAttrHandler.CustomAttrs.EnumPass: requires every enumeration to carry an `xmi:id`; the source's `IndexError` is not modelled.
- OpenIgcExtract.DropSet: reads rids with the three-character prefix dropped, as corrected under Findings, not with the two-character `getRid` at `library/igc_extract_openigc_assets.py:194`.
- OpenIgcExtract.KeptAmong: the corrected rids, as in `DropSet`.
- OpenIgcLoad.RidsAt: reads rids with the three-character prefix dropped, as corrected under Findings, not with the two-character `getRid` at `library/igc_load_openigc_assets.py:171`.
- OpenIgcLoad.PartitionByPicks: the corrected rids, as in `RidsAt`.
- OpenIgcLoad.NoCompleteTypes: the corrected rids, as in `RidsAt`.
- IgcClient.RestIGC.GetContextForItem: when the bulk fetch meets an asset without `_id`, the cache is left as it was. The source has already stored an empty or partial cache for the type, but the `KeyError` ends the run.
- The example keep list of `library/ia_extract_project.py:99-100` types its entries by element path (`DataRuleDefinitions/DataRuleDefinition`), which matches none of the five type names tested at lines 179-188. The model follows the code's type names; `ExampleKeepListGroupsNothing` shows that the example asks for nothing.

## Findings

| source | as written | input that shows it | evidently intended | confidence | as-written member | corrected member |
|---|---|---|---|---|---|---|
| library/igc_workflow.py:334-342 | in ALL mode the APPROVED move is guarded by the APPROVED bucket but is passed `waiting_assets` | one asset `a1` in APPROVED only, with DRAFT and WAITING_APPROVAL empty: the APPROVED move gets `[]` | pass `approved_assets` | high; not executed | IgcWorkflow.ApprovedBucketMisrouted | IgcWorkflow.AllModeMovesOwnBuckets |
| library/igc_extract_relationships.py:296-314 | positions marked for removal are deleted in ascending order from the live list, so each deletion shifts the later positions | limit `["z"]`, relations of types x, y, z: y stays and z goes; with x, y only, the second deletion raises `IndexError` | keep exactly the relations whose type is in the limit | high; not executed | ExtractRelationships.DeleteAscendingKeepsWrongRelation | ExtractRelationships.ResolveRelations |
| library/glossary_filter_changes.py:153-168 | `rid not in assets_to_keep` (and `refRid in assets_to_keep` at line 168) compares the rid with the raw entries, while the documented entries are `{rid: ...}` mappings | the documented example at lines 66-67: its own rid is not kept, so every asset is dropped | compare with each entry's `rid` | medium; not executed | GlossaryFilter.DocumentedExampleDropsEverything | GlossaryFilter.KeptExtendsAsWritten |
| library/ia_extract_project.py:179-188 | `asset.type` and `asset.name` are attribute reads on dictionary entries | any non-empty keep list, e.g. one `data_rule` entry: `AttributeError` | `asset['type']` and `asset['name']` | high; not executed | IaExtract.DocumentedKeepListRejected | IaExtract.Group |
| module_utils/openigc_handler.py:46-48 | `getRid` drops two characters where the prefix `ID_` has three | an asset with `ID` `ID_r1` yields `_r1`, whose lookup finds no asset | drop three characters | high; not executed | OpenIgcHandler.RidAsWrittenMissesAsset | OpenIgcHandler.RidRoundTrip |
| library/igc_extract_openigc_assets.py:184 | the ancestors are asked of `e_asset`, which is not bound until the drop loop | any non-empty `assets_to_keep` | ask for the ancestors of the requested `rid` | high; not executed | OpenIgcExtract.ClosureAsWrittenFails | OpenIgcExtract.ClosureMembers |
| library/igc_merge_relationships.py:127-130 | `merge_count` is set to 0 and never updated, while lines 96-100 document it as the number of merged assets | one file holding one asset without members: one asset is written and `merge_count` is 0 | report the number of merged assets written | high; not executed | MergeLoop.MergeCountAsWrittenMisses | MergeLoop.MergeFiles |
