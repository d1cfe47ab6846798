# Relay query flattening and mutation-query derivation

This project models two pure tree transformations from Relay's query layer.
Both work over a small closed datatype of query nodes (`RelayQuery`):

- `Selection` is either a field or a fragment.
- A field has a name, arguments, a type, a scalar/composite flag and children.
- A fragment has a type condition and children.
- `Node` is either a root (with name, arguments, type and children) or a child
  selection.
- A field's storage key (`KeyOf`) is its name together with its arguments,
  sorted. The ordering is proved total, antisymmetric and transitive.

**Flattening** (`FlattenRelayQuery.Flatten`, `flattenRelayQuery`) normalises a
node in four steps:

1. Fragments on the enclosing type are inlined. With `shouldRemoveFragments`,
   every fragment is inlined.
2. Siblings with the same key are merged, in first-seen order, by
   concatenating their children.
3. Fields are placed before fragments.
4. The merged groups are flattened recursively. Anything with no content
   collapses to `None`. The exception is composite fields without children
   when `preserveEmptyNodes` is set.

**Mutation-query derivation** (`RelayMutationQuery`) builds the query a
mutation sends. Its inputs are:

- a fat query: every field the mutation may change;
- a tracker, modelled as a function from entity ID to the selections
  previously fetched for it;
- the mutation's configs.

Two parts stand on their own:

- `buildFragmentForFields`, `buildFragmentForEdgeDeletion` and
  `buildFragmentForEdgeInsertion` each produce a fragment on the payload type.
  They also record the IDs the tracker was asked about, in order.
- `buildQuery` dispatches on the configs. Its output starts with
  `clientMutationId`, followed by each config's contribution. The first
  config that fails decides the error.

Intersecting tracked selections with the fat query (`IntersectRelayQuery`)
works by field name. It keeps tracked fields whose name the fat query has.
Where the fat query names the field without sub-selections, the tracked field
is kept whole. Otherwise the intersection is cut down recursively. A
connection that is marked is kept only with its metadata, with `edges` and
`pageInfo` dropped.

Range behaviours are looked up by a connection's call-filter key: its
arguments without `first`/`last`, sorted, written `name(value)` and joined
with `.`. The key is `''` when no arguments are left.

The behaviour is pinned down by the repository's two test files. Each test
case becomes a scenario lemma. The scalar leaves of the test's trees are
parameters, pinned by name, so each scenario holds for every argument list
and type those leaves may have. General lemmas state the properties the tests
illustrate, for all inputs.

## Model

| member | source | states |
|---|---|---|
| RelayQuery.SortArgsSorted | src/traversal/__tests__/flattenRelayQuery-test.js:92-119 | sorting a field's arguments yields a sorted permutation of them |
| RelayQuery.SortedUnique | src/traversal/__tests__/flattenRelayQuery-test.js:92-119 | two sorted orderings of the same arguments are the same sequence, so the storage key is canonical |
| RelayQuery.StorageKeyIgnoresArgOrder | src/traversal/__tests__/flattenRelayQuery-test.js:92-119 | two same-named fields have the same storage key iff their arguments are equal as multisets |
| RelayQuery.FilterArgsCounts | src/mutation/__tests__/RelayMutationQuery-test.js:300-303 | dropping pagination arguments keeps every other argument as often as it occurs, and no pagination argument |
| RelayQuery.CallFilterKeyCanonical | src/mutation/__tests__/RelayMutationQuery-test.js:300-303 | connections whose non-pagination arguments agree as multisets get the same range-behaviour key, whatever the order and the `first`/`last` values |
| FlattenRelayQuery.ExpandShape | src/traversal/__tests__/flattenRelayQuery-test.js:60-90 | after expansion no child is a fragment that should be inlined (same type, or any fragment under `shouldRemoveFragments`), and the tree is no higher |
| FlattenRelayQuery.GroupMergesByKey | src/traversal/__tests__/flattenRelayQuery-test.js:92-119 | grouping gives one entry per distinct storage key, in first-seen order; each entry is the first sibling of its key, with the children of all siblings of that key concatenated |
| FlattenRelayQuery.FlattenChildrenShape | src/traversal/__tests__/flattenRelayQuery-test.js:92-119 | the flattened children are exactly the flattened groups that survive; no two share a storage key; fields come before fragments; no fragment that should be inlined remains |
| FlattenRelayQuery.FlattenChildrenMerges | src/traversal/__tests__/flattenRelayQuery-test.js:92-119 | a flattened child is exactly, for some first occurrence of a key among the expanded children, the flattening of all siblings of that key merged |
| FlattenRelayQuery.MergedChildrenIncludes | src/traversal/__tests__/flattenRelayQuery-test.js:92-119 | the merge of a key holds every child of every sibling with that key (the union) |
| FlattenRelayQuery.MergedChildrenFrom | src/traversal/__tests__/flattenRelayQuery-test.js:92-119 | every child of the merge of a key comes from some sibling (nothing invented) |
| FlattenRelayQuery.FlattenSelectionKey | src/traversal/__tests__/flattenRelayQuery-test.js:92-119 | flattening a selection keeps its storage key and its kind (field or fragment) |
| FlattenRelayQuery.FlattenKeepsIdentity | src/traversal/__tests__/flattenRelayQuery-test.js:28-58 | flattening a root keeps its name, arguments and type; flattening a field keeps its storage key |
| FlattenRelayQuery.FlattenChildrenFlat | src/traversal/__tests__/flattenRelayQuery-test.js:28-90 | the output of flattening children is flat: distinct keys, fields first, nothing inlinable, and recursively so |
| FlattenRelayQuery.FlatChildrenFixed | src/traversal/__tests__/flattenRelayQuery-test.js:28-90 | flattening already-flat children returns them unchanged |
| FlattenRelayQuery.FlattenIdempotent | src/traversal/__tests__/flattenRelayQuery-test.js:28-90 | flattening a flattened node gives the same result |
| FlattenRelayQuery.FirstScalarStaysFirst | src/traversal/__tests__/flattenRelayQuery-test.js:177-191 | a scalar first child stays the first child of the flattened output, without children |
| FlattenRelayQuery.FlattenVacuous | src/traversal/__tests__/flattenRelayQuery-test.js:121-143 | a node with no content (only empty fragments and composite fields without content, unless `preserveEmptyNodes`) flattens to `None` |
| FlattenRelayQuery.FlattenNoneIff | src/traversal/__tests__/flattenRelayQuery-test.js:121-143 | for a node in which each field name has one kind (scalar or composite), flattening gives `None` iff the node has no content |
| FlattenRelayQueryScenarios.FlattensRoots | src/traversal/__tests__/flattenRelayQuery-test.js:28-58 | the `Viewer` fragment is inlined, the two `actor`s merge and the `Actor` fragment is inlined: one `actor { name, firstName, lastName }`, which as a multiset is the test's `firstName, name, lastName` |
| FlattenRelayQueryScenarios.FlattensFragments | src/traversal/__tests__/flattenRelayQuery-test.js:60-90 | nested `Actor` fragments are inlined at every depth; `... on User { username }` survives under `actor` |
| FlattenRelayQueryScenarios.FlattensFields | src/traversal/__tests__/flattenRelayQuery-test.js:92-119 | the duplicated `name`, once direct and once through the inlined fragment, appears once: `actor { firstName, name, lastName }` |
| FlattenRelayQueryScenarios.FlattensEmptyFragments | src/traversal/__tests__/flattenRelayQuery-test.js:121-143 | the empty fragment, the field holding only it and the root holding only that field all flatten to `None` |
| FlattenRelayQueryScenarios.OptionallyRemovesFragments | src/traversal/__tests__/flattenRelayQuery-test.js:145-175 | with `shouldRemoveFragments`, the `User` and `Page` fragments are inlined into `actor`: `actor { firstName, name }` |
| FlattenRelayQueryScenarios.OptionallyPreservesEmptyNodes | src/traversal/__tests__/flattenRelayQuery-test.js:177-191 | with `preserveEmptyNodes`, `likers` without sub-selections is kept: exactly `likers`, `doesViewerLike`, `id`, in that order |
| IntersectRelayQuery.IntersectSurface | src/mutation/__tests__/RelayMutationQuery-test.js:77-111 | the visible fields of the intersection are, in order, exactly the tracked visible fields the fat query names, each cut down as the field rule says (reference definition `Matched`) |
| IntersectRelayQuery.MatchedMembers | src/mutation/__tests__/RelayMutationQuery-test.js:77-111 | a field is in the reference intersection iff some tracked field of a name the fat query has yields it |
| IntersectRelayQuery.PatternFieldSpec | src/mutation/__tests__/RelayMutationQuery-test.js:77-111 | the fat-query field found for a name is a visible field of that name; none is found iff no visible field has the name |
| IntersectRelayQuery.IntersectNothingInvented | src/mutation/__tests__/RelayMutationQuery-test.js:77-111 | every field the intersection makes visible is a tracked field, possibly with fewer children, whose name the fat query has |
| IntersectRelayQuery.KeepsUnterminated | src/mutation/__tests__/RelayMutationQuery-test.js:77-111 | a tracked field the fat query names without sub-selections, and which is not marked, is kept whole |
| IntersectRelayQuery.NonRangeSurface | src/mutation/__tests__/RelayMutationQuery-test.js:242-280 | the metadata of a connection is exactly its visible fields other than `edges` and `pageInfo` |
| IntersectRelayQuery.StripsRange | src/mutation/__tests__/RelayMutationQuery-test.js:242-280 | a marked connection that the fat query names without sub-selections keeps nothing visible named `edges` or `pageInfo` |
| RelayMutationQuery.FindFieldSpec | src/mutation/__tests__/RelayMutationQuery-test.js:55-75 | a fat-query field is found iff a child field of that name without arguments exists, and what is found is such a child |
| RelayMutationQuery.FatFieldSpec | src/mutation/__tests__/RelayMutationQuery-test.js:55-75 | looking up a fat field succeeds iff the payload has it; on failure the error is the invalid field name, with the message "Invalid field name on fat query, `<name>`." |
| RelayMutationQuery.WithIdSpec | src/mutation/__tests__/RelayMutationQuery-test.js:77-111 | adding `id` yields children with `id`, changes nothing else, appends `id` or nothing, and leaves a field that has `id` unchanged |
| RelayMutationQuery.MutatedFieldSurface | src/mutation/__tests__/RelayMutationQuery-test.js:77-111 | a fat field cut down to tracked selections is empty iff nothing is tracked; otherwise it is the fat field with `id` whose visible children are exactly the intersection's, plus `id` |
| RelayMutationQuery.FieldsPartsSpec | src/mutation/__tests__/RelayMutationQuery-test.js:55-75 | the fields fragment fails iff some key is missing from the fat query, and then with the first missing key; on success the IDs queried are all the entries' IDs in order, and a field is produced iff some entry yields it |
| RelayMutationQuery.FieldsChangeNothingInvented | src/mutation/__tests__/RelayMutationQuery-test.js:77-148 | every field of the fields fragment is a fat field cut down to what was tracked for its entry's IDs; the tracker is queried once per ID, in order |
| RelayMutationQuery.FieldsChangeKeepsTracked | src/mutation/__tests__/RelayMutationQuery-test.js:77-111 | a tracked field that the fat field names without sub-selections appears in the fields fragment |
| RelayMutationQuery.EdgeDeletionSpec | src/mutation/__tests__/RelayMutationQuery-test.js:228-280 | edge deletion fails iff the parent is missing, with its name; otherwise it queries the parent once and yields at most the parent cut down, in which the connection holds nothing named `edges` or `pageInfo` |
| RelayMutationQuery.DeletionKeepsMetadata | src/mutation/__tests__/RelayMutationQuery-test.js:242-280 | a tracked connection with metadata is requested under the parent field with exactly its metadata (everything but `edges` and `pageInfo`) |
| RelayMutationQuery.FieldsNamedSpec | src/mutation/__tests__/RelayMutationQuery-test.js:352-406 | the tracked connections of a name are exactly the tracked fields of that name |
| RelayMutationQuery.SplicedEdgeChildrenSpec | src/mutation/__tests__/RelayMutationQuery-test.js:352-459 | the new edge collects exactly the edge children of tracked connections whose call filter has a range behaviour other than refetch |
| RelayMutationQuery.RefetchKeysSpec | src/mutation/__tests__/RelayMutationQuery-test.js:461-501 | a connection is refetched iff it has edges and its call filter has no range behaviour (or has refetch) |
| RelayMutationQuery.EdgeInsertionSpec | src/mutation/__tests__/RelayMutationQuery-test.js:306-554 | edge insertion fails iff a parent name is given that the fat query lacks, with its name; otherwise it queries the parent once, yields nothing without tracked connections, and else yields the parent part, then the new edge when some spliced connection has edge children |
| RelayMutationQuery.InsertionRefetchesInFull | src/mutation/__tests__/RelayMutationQuery-test.js:461-501 | a tracked connection without a range behaviour is kept whole under the parent field, an output child of the parent's name |
| RelayMutationQuery.InsertionKeepsMetadataOnly | src/mutation/__tests__/RelayMutationQuery-test.js:503-531 | whatever the parent part keeps of a connection that is not refetched holds nothing named `edges` or `pageInfo` |
| RelayMutationQuery.InsertionKeepsMetadata | src/mutation/__tests__/RelayMutationQuery-test.js:503-531 | a tracked connection that is not refetched and has metadata is requested under the parent field with exactly its metadata (everything but `edges` and `pageInfo`) |
| RelayMutationQuery.AddNodeIdSpec | src/mutation/__tests__/RelayMutationQuery-test.js:306-350 | adding node IDs adds `id` to each `node` field and changes nothing else |
| RelayMutationQuery.EdgeFieldShape | src/mutation/__tests__/RelayMutationQuery-test.js:306-406 | the new edge field has no arguments, starts with `__typename`, holds `cursor`, has distinct keys, and each of its `node`s has `id` |
| RelayMutationQuery.DeletedIdSelectionSpec | src/mutation/__tests__/RelayMutationQuery-test.js:789-918 | a shallow deleted-ID name gives a scalar of that name; a path gives the chain of those fields, each without arguments and with exactly one child, ending in `id` |
| RelayMutationQuery.ConfigPartsQueried | src/mutation/__tests__/RelayMutationQuery-test.js:632-974 | each config queries the tracker for exactly its own IDs |
| RelayMutationQuery.ConfigsPartsOk | src/mutation/__tests__/RelayMutationQuery-test.js:1206-1230 | the configs together succeed iff each succeeds |
| RelayMutationQuery.ConfigsPartsFirstError | src/mutation/__tests__/RelayMutationQuery-test.js:1206-1230 | a failure is the error of some config, all configs before which succeed |
| RelayMutationQuery.ConfigsPartsQueried | src/mutation/__tests__/RelayMutationQuery-test.js:1082-1204 | the IDs queried are the configs' IDs, config by config |
| RelayMutationQuery.ConfigsPartsFields | src/mutation/__tests__/RelayMutationQuery-test.js:976-1204 | the selections in the result are exactly those the configs add: each config's selections appear, and nothing else does |
| RelayMutationQuery.BuildQuerySpec | src/mutation/__tests__/RelayMutationQuery-test.js:632-1230 | the query succeeds iff every config does, otherwise fails with the first error; on success it is the root field with `input: $input` on the payload type, `clientMutationId` first, also after flattening, and the IDs queried are all configs' |
| RelayMutationQuery.UnrecognizedConfigFails | src/mutation/__tests__/RelayMutationQuery-test.js:1206-1230 | an unknown config type makes the query fail; when nothing before it fails, with "Unrecognized config key `<type>` for `<mutation>`." |
| RelayMutationQuery.RequiredChildrenPassthrough | src/mutation/__tests__/RelayMutationQuery-test.js:976-1080 | the children of a required-children config appear in the mutation query |
| RelayMutationQueryScenarios.FieldsThrowsForInvalidName | src/mutation/__tests__/RelayMutationQuery-test.js:55-75 | naming `unsubscribee`, missing from the fat query, fails with "Invalid field name on fat query, `unsubscribee`." |
| RelayMutationQueryScenarios.FieldsMapsSingleId | src/mutation/__tests__/RelayMutationQuery-test.js:77-111 | `feedback { likers, id }`: `doesViewerLike` (untracked) and `url` (not in the fat query) are dropped; the tracker is asked about `123` once |
| RelayMutationQueryScenarios.FieldsMapsPluralIds | src/mutation/__tests__/RelayMutationQuery-test.js:113-148 | `stories { seenState, id }` for the plural ID list `['123']` |
| RelayMutationQueryScenarios.FieldsMergesPluralIds | src/mutation/__tests__/RelayMutationQuery-test.js:150-212 | the tracked fragments of `123` and `456`, in that order, are intersected: `stories { ... on Story { seenState }, id }`; the tracker is asked about `123` and then `456` |
| RelayMutationQueryScenarios.DeletionThrowsForInvalidParent | src/mutation/__tests__/RelayMutationQuery-test.js:228-240 | the parent name `story` fails with "Invalid field name on fat query, `story`." |
| RelayMutationQueryScenarios.DeletionKeepsConnectionMetadata | src/mutation/__tests__/RelayMutationQuery-test.js:242-280 | `feedback { comments(first: "10") { count }, id }`: `edges` and `doesViewerLike` are dropped |
| RelayEdgeInsertionScenarios.InsertionIncludesEdgeFields | src/mutation/__tests__/RelayMutationQuery-test.js:306-350 | only the new edge: `__typename`, `cursor`, `node { body { text }, id }`, `source { id }` |
| RelayEdgeInsertionScenarios.InsertionMergesTrackedEdges | src/mutation/__tests__/RelayMutationQuery-test.js:352-406 | the edges of `comments(first: "10")` and `comments(last: 10)`, both with call filter `''`, merge into one `node { body { text }, author { name }, id }` |
| RelayEdgeInsertionScenarios.InsertionExcludesOtherFilters | src/mutation/__tests__/RelayMutationQuery-test.js:408-459 | the edges of `comments(orderby: "ranked_threaded", first: "10")` add nothing to the new edge |
| RelayEdgeInsertionScenarios.InsertionRefetchesWithoutRangeConfig | src/mutation/__tests__/RelayMutationQuery-test.js:461-501 | without a range behaviour the connection is refetched whole under `feedback`, with `id`, and no edge is requested |
| RelayEdgeInsertionScenarios.InsertionIncludesNonEdgeFields | src/mutation/__tests__/RelayMutationQuery-test.js:503-531 | a tracked `comments { count }` is requested under `feedback`, with `id` |
| RelayEdgeInsertionScenarios.InsertionThrowsForInvalidParent | src/mutation/__tests__/RelayMutationQuery-test.js:533-554 | the parent name `story` fails with "Invalid field name on fat query, `story`." |
| RelayBuildQueryScenarios.QueryForRangeAdd | src/mutation/__tests__/RelayMutationQuery-test.js:632-720 | `commentCreate(input: $input) { clientMutationId, ... on CommentCreateResponsePayload { feedback { id }, feedbackCommentEdge { … } } }` |
| RelayBuildQueryScenarios.QueryForNodeDelete | src/mutation/__tests__/RelayMutationQuery-test.js:722-787 | `clientMutationId`, the scalar `deletedCommentId`, then `feedback { id }` |
| RelayBuildQueryScenarios.QueryForShallowRangeDelete | src/mutation/__tests__/RelayMutationQuery-test.js:789-854 | `clientMutationId`, the scalar `deletedCommentId`, then `feedback { id }` |
| RelayBuildQueryScenarios.QueryForDeepRangeDelete | src/mutation/__tests__/RelayMutationQuery-test.js:856-918 | `clientMutationId`, `formerFriend { id }`, then a payload fragment holding `actor { id }` |
| RelayBuildQueryScenarios.QueryForFieldsChange | src/mutation/__tests__/RelayMutationQuery-test.js:920-974 | `clientMutationId`, then `feedback { likers, id }` |
| RelayBuildQueryScenarios.QueryWithRequiredChildren | src/mutation/__tests__/RelayMutationQuery-test.js:976-1080 | the RANGE_ADD fragment, then the required fragment as given |
| RelayBuildQueryScenarios.QueryForRangeAddAndFieldsChange | src/mutation/__tests__/RelayMutationQuery-test.js:1082-1204 | `clientMutationId`; the RANGE_ADD fragment `feedback { likers, id }` plus the new edge; then the FIELDS_CHANGE fragment `feedback { comments(first: "10") { … }, likers, id }`; the tracker is asked about `123` twice |
| RelayBuildQueryScenarios.QueryForUnknownConfig | src/mutation/__tests__/RelayMutationQuery-test.js:1206-1230 | `COSMIC_RAY_BIT_FLIP` fails with "Unrecognized config key `COSMIC_RAY_BIT_FLIP` for `UnfriendMutation`." and no query |

## Left out

- The implementations of `flattenRelayQuery`, `RelayMutationQuery` and `intersectRelayQuery` are not part of this model. The behaviour is the behaviour the two test files assert.
- The optimistic-update entry points `buildFragmentForOptimisticUpdate` and `buildQueryForOptimisticUpdate` (src/mutation/__tests__/RelayMutationQuery-test.js:557-628) are not modelled. They infer a selection from response data through `inferRelayFieldsFromData`, a foreign call that the tests only check was made.
- RANGE_DELETE's `pathToConnection` is not modelled. The deep RANGE_DELETE test (src/mutation/__tests__/RelayMutationQuery-test.js:856-918) passes it as `['actor', 'friends']` together with `parentName: 'actor'`. The model uses only `parentName`, and `QueryForDeepRangeDelete` states its config without `pathToConnection`.
- GraphQL text (`Relay.QL`, `fromGraphQL`, `getNode`) is not modelled. The model starts from built trees.
- The jest mock and its call log are not modelled. The log becomes the `queried` sequence of IDs.
- The `RelayRenderer` tests are not modelled. They cover rendering, garbage-collection holds and asynchronous requests.
- `EDGES_HAVE_SOURCE_FIELD` is not modelled. `source { id }` is always part of a new edge.
- Generated fields (`id`, `__typename`, `cursor`, `pageInfo`) are added only where the modelled builders add them. They are `id` on cut-down fields and on edge `node`s, and `__typename`, `cursor` and `source` on the new edge.
  - The tests' expected trees get further generated fields from `getNode` and `fromGraphQL`, and their matcher disregards some. The scenario lemmas state the model's exact output.
  - The required fragment in src/mutation/__tests__/RelayMutationQuery-test.js:976-1080 is passed through unchanged. The model adds no `id` to it.
- The new edge field is flattened under the type name `Edge`. The type of the payload's edge field is not modelled.
- `buildQuery` does not flatten its result. `BuildQuerySpec` shows that flattening keeps `clientMutationId` first.
- Intersection matches tracked fields to fat-query fields by name. The argument-aware parts of `intersectRelayQuery` beyond that are not modelled.
- Edge insertion checks `parentName` before looking at the tracker. A missing parent therefore fails even when nothing is tracked.
- Merging keeps the first sibling's scalar/composite flag, type and arguments. The result depends on sibling order only through this and through the first-seen order of the output.
- FlattensRoots: the test lists the merged `actor`'s children as `firstName, name, lastName`. The model yields the first-seen order `name, firstName, lastName`. The lemma states the exact output, and that it equals the expected children as a multiset, since the test's matcher ignores order.
- FlattenNoneIff: the converse direction requires that every field name has one kind (scalar or composite) throughout the node. Without that, a merge can turn a composite field into a scalar and lose content. `FlattenVacuous` holds without the assumption.
- FieldsMergesPluralIds: the tracked fragments are built with `fromGraphQL.Fragment`, which adds generated fields. The expected tree (src/mutation/__tests__/RelayMutationQuery-test.js:188-204) therefore shows an `id` in each `... on Story` fragment, and `__typename` and `id` under `actors`. The model's tracked fragments leave these out. The lemma states that the tracked fragments of `123` and `456` are intersected in that order, which is what the test asserts about them.
- QueryForRangeAddAndFieldsChange: the FIELDS_CHANGE fragment keeps the tracked connection as it was tracked, `comments(first: "10") { edges { node { body { text } } } }`. The `cursor`, `pageInfo` and edge `id` that the test's expected tree also shows come from `getNode` and are not modelled.
- QueryWithRequiredChildren: the required fragment appears exactly as passed. The `id` the expected tree lists under its `feedback` is not added. Its RANGE_ADD fragment holds `feedback { id }`, whereas the test expects `feedback { ... on Feedback { id } }` (src/mutation/__tests__/RelayMutationQuery-test.js:1031-1037). The reason is the same as for QueryForRangeAdd.
- QueryForRangeAdd: the model yields `feedback { id }`, whereas the test expects `feedback { ... on Feedback { id } }` (src/mutation/__tests__/RelayMutationQuery-test.js:690-696). The tracked `... on Feedback` fragment holds only the spliced connection, because the generated `id` that `getNode` puts into it is not modelled. Once the connection is reduced to its metadata, the fragment is empty and is dropped, and `id` is added to `feedback` itself.
- BuildQuerySpec: the ensures does not state the mutation query's children beyond the first. `ConfigsPartsFields` states that they are exactly the configs' selections, taken as a set. Their order is stated only by the scenario lemmas.
