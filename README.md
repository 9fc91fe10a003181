# sns_groups, modelled in Dafny

This project models the two cooperating canisters of Catalyze's group
service.

- **The group canister ("child").** It holds a table from group
  identifier to `Group`. It creates, edits and soft-deletes groups. It
  manages custom roles and their permissions, and it records a member count
  per member canister. Its query pipeline drops deleted groups, filters
  (AND or OR), sorts stably on one key and pages. A chunked export serialises
  the filtered groups and answers one byte window per request.
- **The directory canister ("scalable").** It holds a map from principal
  to child-canister record and an administrative whitelist. It spawns,
  installs, closes, upgrades and reinstalls child canisters. It collects the
  groups of every child by fetching each child's chunked export and
  concatenating the chunks.
- **The endpoint guards of the child.** Edits are authorised before they
  mutate. Only the parent may read the chunked export. Only the member
  canister itself may report its count.

Each canister's global `DATA` cell is an object: `GroupStore.Store` for the
child and `Directory.ScalableData` for the directory. Their methods carry
`modifies` clauses and state the whole new state. Each mutating operation is
specified by a pure outcome function: the reply together with the new table.
The properties are proved about those functions.

Inter-canister calls become arguments that stand for their outcomes:
- creating a canister, installing code, forwarding an entry, fetching a
  chunk;
- the member canister's `get_member_roles` answer;
- registering the owner.

External library helpers become arguments or constants of the state object:
- `has_permission`, `default_roles`, `get_read_only_permissions`;
- `get_paged_data`, `serialize`/`deserialize`;
- the validators, `Identifier::decode`.

`time()` is the argument `now`. The iteration order of a table or a
`HashMap` is left open: the methods pick keys with `:|`, and their contracts
hold for every order.

Files:
- `wrappers.dfy`: `Option` and `Result`.
- `group_model.dfy`: the shared records and sum types.
- `group_query.dfy`: the filter predicates, AND and OR filtering, the stable
  sort and the chunk window.
- `group_store.dfy`: the child's store.
- `child_methods.dfy`: the child's endpoints.
- `whitelist.dfy`: the directory's whitelist.
- `directory.dfy`: the directory's state and the child life cycle.
- `aggregator.dfy`: fetching and joining children's chunks.

The model keeps these behaviours of the code as written:
- **OR filtering.** An empty filter list gives an empty result.
- **Chunk count.** The count a chunk reply reports is `len / max` (integer
  division), not a rounded-up count.
- **`remove_role`.** It never removes anything. Its lookup only finds
  protected roles, and protected roles are refused.
- **`check_permission`.** It appends the default roles to `get_group_roles`,
  which already appends them, so the defaults appear twice.
- **First-child initialisation.** It admits a caller that is a registered
  canister or holds ReadWrite rights. A registered caller always meets a
  non-empty table, so only a ReadWrite caller can succeed.
- **`reinstall_child_canister`.** It rewrites the record as freshly
  installed. This resets availability and range, and registers the principal
  if it was absent.
- **Closing a child.** The caller's closed record is written under the
  record's own `principal` field. `Directory.KeyedByPrincipal` (every record
  stored under its own principal) is kept by every table write, and under it
  that key is the caller's.
- **`add_group`'s struct literal.** It does not name
  `privacy_gated_type_amount` or `wallets`. The model gives them `None` and
  the empty map.
- **`GroupResponse.wallets`.** `map_group_to_group_response` does not fill
  this declared field, so the response record has no `wallets` field.
- **Fetching a child's chunks.** `get_filtered_child_data` fetches chunks
  `1..=last` only when chunk 0 reports `last > 1`. The directory's methods
  keep that guard (see "## Findings").
- **Install failure after a spawn.** When the new canister is created but
  code installation fails, the spawned record stays registered and the
  error is returned.
- **The directory's outbound fetch.** It names the child method
  `get_groups_for_parent`, but the child's export is named `get_chunked_data`.
  The model assumes the call reaches that export, as
  `Aggregator.Serves` states.

## Model

| member | source | states |
|---|---|---|
| GroupModel.DefaultGroup | src/shared/src/group_model.rs:50-73 | The default group is not deleted, has anonymous owner and creator, and has no tags, member counts, wallets or roles |
| GroupQuery.Lower | src/child/src/store.rs:703-768 | Lower-casing keeps the length and lower-cases each character |
| GroupQuery.ContainsAt | src/child/src/store.rs:703-768 | The name filter's `contains` holds iff the needle occurs at some position of the haystack |
| GroupQuery.KeepAll | src/child/src/store.rs:703-768 | AND filtering keeps exactly the input groups that pass every filter, as a subsequence of the input, so distinct identifiers stay distinct; an empty filter list returns the input unchanged |
| GroupQuery.NarrowOnce | src/child/src/store.rs:703-768 | Narrowing the AND result by one more filter equals filtering by the extended list |
| GroupQuery.AndFilter | src/child/src/store.rs:703-768 | The filter-by-filter loop returns the one-pass conjunction, holding exactly the groups that pass every filter |
| GroupQuery.KeepMatchingAny | src/child/src/store.rs:771-851 | The groups matching some filter, in input order; distinct identifiers stay distinct |
| GroupQuery.InsertMatches | src/child/src/store.rs:773-848 | One OR filter's scan keeps the identifier-keyed table sound and complete for the filters seen so far |
| GroupQuery.TableValues | src/child/src/store.rs:851 | Listing the table's values yields one group per key, each stored under its own identifier; an empty table lists nothing |
| GroupQuery.OrFilter | src/child/src/store.rs:771-851 | OR filtering returns matching input groups, at most one per identifier, with every matching identifier represented; an empty filter list returns nothing |
| GroupQuery.OrResultExact | src/child/src/store.rs:771-851 | On table rows (distinct identifiers) the OR result holds exactly the matching groups and has as many elements as there are matches |
| GroupQuery.LexTransitive | src/child/src/store.rs:857-877 | String order is transitive |
| GroupQuery.LexTotal | src/child/src/store.rs:857-877 | Distinct strings are ordered one way or the other |
| GroupQuery.BeforeTransitive | src/child/src/store.rs:857-877 | The sort comparator, in either direction, is transitive |
| GroupQuery.BeforeTotal | src/child/src/store.rs:857-877 | Groups with different keys are ordered one way or the other |
| GroupQuery.Insert | src/child/src/store.rs:857-877 | Inserting one group adds exactly that group to the multiset |
| GroupQuery.InsertSorted | src/child/src/store.rs:857-877 | Inserting into a sorted sequence keeps it sorted |
| GroupQuery.InsertWithKey | src/child/src/store.rs:857-877 | Inserting keeps every run of equal keys in order, with the new group last in its run |
| GroupQuery.OrderGroups | src/child/src/store.rs:857-877 | The sort returns a permutation of its input, sorted by the chosen key and direction, with equal keys in input order; distinct identifiers stay distinct |
| GroupQuery.DistinctPermutation | src/child/src/store.rs:857-877 | A permutation of a sequence with distinct identifiers has distinct identifiers |
| GroupQuery.DistinctOnce | src/child/src/store.rs:857-877 | In a sequence with distinct identifiers every group occurs at most once |
| GroupQuery.StableSortUnique | src/child/src/store.rs:857-877 | Two sorted sequences that agree on every run of equal keys are equal, so any stable sort gives the same result |
| GroupQuery.ChunkWindow | src/child/src/store.rs:280-303 | A short payload comes back whole with `(0, 0)`; otherwise the reply is the slice `[chunk*max, min((chunk+1)*max, len))` with the echoed chunk and a count of `len / max` when `max < len`, else 0; a start past the end traps |
| GroupQuery.ChunksPrefix | src/child/src/store.rs:280-303 | Consecutive windows concatenate to the matching slice of the payload |
| GroupQuery.ChunkRoundTrip | src/child/src/store.rs:280-303 | Chunks `0..=last`, with the `last` chunk 0 reports, concatenate to the whole payload |
| GroupStore.MemberTotalRemove | src/child/src/store.rs:897 | The summed member count splits into one canister's count plus the sum over the others |
| GroupStore.MemberTotalUpdate | src/child/src/store.rs:897 | Setting one canister's count moves the sum by the difference between its new and old count |
| GroupStore.SumMemberCounts | src/child/src/store.rs:897 | Summing the per-canister counts in the map's order gives the total, whatever the order |
| GroupStore.MapToResponse | src/child/src/store.rs:880-902 | The response copies the record's fields, lists its custom roles followed by the default roles, and sums its member counts |
| GroupStore.FindRole | src/child/src/store.rs:563 | The lookup finds a custom role of that name iff one exists, and returns the first role of that name |
| GroupStore.FindProtectedRole | src/child/src/store.rs:481-484 | The lookup finds only protected roles of that name |
| GroupStore.WithoutName | src/child/src/store.rs:617-622 | Dropping a name keeps every other role, in order, and no role of that name |
| GroupStore.CountNamedAbsent | src/child/src/store.rs:617-622 | A role list without the name counts zero roles of that name |
| GroupStore.FindPermission | src/child/src/store.rs:579-580 | The lookup finds a required permission of that name iff one exists, and returns the first permission of that name |
| GroupStore.Resolve | src/child/src/store.rs:579-605 | An unknown permission is kept unprotected with the caller's actions; a protected required one keeps its default actions; an unprotected required one takes the caller's actions |
| GroupStore.ResolvePermissions | src/child/src/store.rs:574-606 | The loop resolves every supplied permission in order, and a protected entry of the result is always the required permission unchanged |
| GroupStore.UpdateGroupOutcome | src/child/src/store.rs:125-166 | Validation error, missing entry, then a deleted group (BadRequest "DELETED_GROUP") fail with no change; otherwise only the nine editable fields change |
| GroupStore.DeleteGroupOutcome | src/child/src/store.rs:170-205 | A non-owner fails Unauthorized with no change; the owner's delete only sets `is_deleted` and the time, and keeps the entry |
| GroupStore.AddRoleOutcome | src/child/src/store.rs:334-402 | Non-owners fail Unauthorized and a name taken by a custom or default role fails BadRequest; otherwise one unprotected role with the read-only permissions is appended |
| GroupStore.AddRoleKeepsNamesDistinct | src/child/src/store.rs:352-388 | When custom role names are distinct before a successful `add_role`, they stay distinct |
| GroupStore.RemoveRoleOutcome | src/child/src/store.rs:455-530 | `remove_role` always fails and never changes the table |
| GroupStore.UpdateRolePermissionsOutcome | src/child/src/store.rs:534-640 | Owner only and the role must exist; then every role of that name is replaced by one rebuilt role that keeps name, protection, colour and index, with the resolved permissions |
| GroupStore.RolePermissionsLeaveOneRole | src/child/src/store.rs:617-626 | After a successful permission update exactly one role has that name |
| GroupStore.MemberCountOutcome | src/child/src/store.rs:907-929 | The count is set only for an identifier of kind "grp" that is in the table; only that canister's count changes |
| GroupStore.MemberCountMovesTotal | src/child/src/store.rs:907-929 | A reported count moves the group's total by the change in that canister's count |
| GroupStore.ById | src/child/src/store.rs:311-331 | The result holds exactly the responses of the live groups among the identifiers |
| GroupStore.NewGroup | src/child/src/store.rs:51-67 | A new group is owned and created by the caller, not deleted, has no custom roles and counts one member at the member canister |
| GroupStore.Store.constructor | src/child/src/store.rs:34-36 | The store starts with an empty table |
| GroupStore.Store.AddGroup | src/child/src/store.rs:42-110 | Validation, capacity (the record goes to a spawned sibling) and the owner registration decide the reply; only a full success adds the new group, under a fresh identifier, owned by the caller and stamped `updated_on` with the owner-registration time |
| GroupStore.Store.UpdateGroup | src/child/src/store.rs:113-167 | Reply and new table are `UpdateGroupOutcome` of the old table |
| GroupStore.Store.DeleteGroup | src/child/src/store.rs:170-205 | Reply and new table are `DeleteGroupOutcome` of the old table |
| GroupStore.Store.LiveResponses | src/child/src/store.rs:235-245 | The listing holds each live group's response once and no deleted group |
| GroupStore.Store.FilteredLive | src/child/src/store.rs:696-854 | Filtering selects exactly the live groups that pass the filters under the chosen filter type, each once |
| GroupStore.Store.GetGroups | src/child/src/store.rs:228-254 | The page is taken from the stable sort of the filtered listing: a permutation of it, sorted by the key, with equal keys in listing order; the listing holds each live group that passes the filters exactly once |
| GroupStore.Store.GetChunkedData | src/child/src/store.rs:259-308 | The reply is the chunk window over the serialised listing, which holds each live group that passes the filters exactly once |
| GroupStore.Store.GetGroupsById | src/child/src/store.rs:311-331 | The loop returns `ById` of the table |
| GroupStore.Store.GetGroupRoles | src/child/src/store.rs:444-451 | A known group's roles are its custom roles followed by the defaults; an unknown group has none |
| GroupStore.Store.AddRole | src/child/src/store.rs:334-402 | Reply and new table are `AddRoleOutcome` of the old table |
| GroupStore.Store.RemoveRole | src/child/src/store.rs:455-530 | Reply and new table are `RemoveRoleOutcome` of the old table |
| GroupStore.Store.UpdateRolePermissions | src/child/src/store.rs:534-640 | Reply and new table are `UpdateRolePermissionsOutcome` of the old table |
| GroupStore.Store.UpdateMemberCount | src/child/src/store.rs:907-929 | Reply and new table are `MemberCountOutcome` of the old table |
| GroupStore.Store.CheckPermission | src/child/src/store.rs:991-1046 | Success iff the member canister answers with the caller's principal and the roles grant the action; every failure is Unauthorized, and a principal mismatch is "PRINCIPAL_MISMATCH" |
| ChildMethods.GetGroups | src/child/src/methods.rs:33-41 | Always `Ok`, wrapping the page of the stable sort of a listing that holds each live group passing the filters exactly once |
| ChildMethods.GetChunkedData | src/child/src/methods.rs:45-56 | A caller other than the parent gets no bytes and `(0, 0)`; the parent gets the chunk window over a serialised listing holding each live group passing the filters exactly once |
| ChildMethods.GetGroupsById | src/child/src/methods.rs:66-70 | Always `Ok`, wrapping the live groups among the identifiers |
| ChildMethods.EditGroup | src/child/src/methods.rs:74-83 | A failed Edit check returns its error and changes nothing; otherwise the update runs |
| ChildMethods.DeleteGroup | src/child/src/methods.rs:87-95 | A failed Delete check returns its error and changes nothing; otherwise the delete runs for the caller |
| ChildMethods.AddRole | src/child/src/methods.rs:99-110 | Gated on the Edit check before the store is touched |
| ChildMethods.RemoveRole | src/child/src/methods.rs:114-123 | Gated on the Edit check; the store never changes |
| ChildMethods.EditRolePermissions | src/child/src/methods.rs:133-145 | Gated on the Edit check before the store is touched |
| ChildMethods.UpdateMemberCount | src/child/src/methods.rs:149-159 | A caller other than the member canister gets `Err(false)` and no change; otherwise the store's update runs |
| Whitelist.FindEntry | src/canister/src/logic/store.rs:225 | The lookup finds an entry of the principal iff one exists, and on unique principals it is that principal's only entry |
| Whitelist.HasRights | src/canister/src/logic/store.rs:717-736 | False for an unlisted principal; on unique principals, true iff the stored rights are at least the required ones |
| Whitelist.HasRightsMonotone | src/canister/src/logic/store.rs:717-736 | Holding a right implies holding every weaker right |
| Whitelist.WithoutPrincipal | src/canister/src/logic/store.rs:257-264 | Exactly the other principals' entries remain, and uniqueness is kept |
| Whitelist.AddOutcome | src/canister/src/logic/store.rs:167-208 | Owner rights are refused first, then a caller without Owner rights, then an already-listed principal; otherwise exactly one entry is appended |
| Whitelist.RemoveOutcome | src/canister/src/logic/store.rs:229-266 | An absent principal is NotFound, an Owner entry is refused, then a caller without Owner rights; otherwise only that principal's entries are removed |
| Whitelist.InitialWhitelist | src/canister/src/logic/default_methods.rs:36-41 | `init` installs exactly one entry: Owner rights, the owner's principal, label "Owner" |
| Whitelist.AddKeepsOwnerInvariant | src/canister/src/logic/store.rs:167-208 | Adding keeps principals unique and never creates a second Owner entry |
| Whitelist.RemoveKeepsOwnerInvariant | src/canister/src/logic/store.rs:229-266 | Removing never drops the Owner entry |
| Whitelist.OwnerEntryFound | src/canister/src/logic/store.rs:225-239 | Under the owner invariant the lookup of the owner finds the Owner entry |
| Whitelist.OwnerKeepsRights | src/canister/src/logic/store.rs:154-270 | The owner keeps Owner rights across any add or remove |
| Directory.SpawnedRecord | src/canister/src/logic/store.rs:638-651 | A spawned canister is Empty, unversioned, available, with range `(0, None)` |
| Directory.InstalledRecord | src/canister/src/logic/store.rs:699-711 | An installed child is ScalableChild with the staged version, available, with range `(0, None)` |
| Directory.ClosedRecord | src/canister/src/logic/store.rs:480-491 | A closed record is unavailable with range `(0, Some(last_entry_id))`, keeping principal, type and version |
| Directory.PrincipalsOf | src/canister/src/logic/store.rs:754-761 | The principals of the visited records, in order |
| Directory.ScalableData.constructor | src/canister/src/logic/store.rs:70-83 | The default state: no name, no canisters, an empty whitelist, anonymous owner and parent |
| Directory.ScalableData.Init | src/canister/src/logic/default_methods.rs:30-43 | Name, owner and parent come from the arguments and the whitelist is replaced by the single Owner entry |
| Directory.ScalableData.HasWhitelistRights | src/canister/src/logic/store.rs:717-736 | False for an unlisted principal; on unique principals, true iff its rights cover the required ones |
| Directory.ScalableData.AddToWhitelist | src/canister/src/logic/store.rs:154-210 | Reply and new whitelist are `AddOutcome` of the old whitelist; nothing else changes |
| Directory.ScalableData.RemoveFromWhitelist | src/canister/src/logic/store.rs:212-270 | Reply and new whitelist are `RemoveOutcome` of the old whitelist; nothing else changes |
| Directory.ScalableData.ChangeName | src/canister/src/logic/store.rs:92-103 | The name changes iff the caller has ReadWrite rights and at most one canister is registered |
| Directory.ScalableData.GetAvailableCanister | src/canister/src/logic/store.rs:280-294 | Returns an available record of another principal, and errors iff none exists |
| Directory.ScalableData.SpawnEmptyCanister | src/canister/src/logic/store.rs:617-655 | A created canister is registered as spawned; a failed creation changes nothing |
| Directory.ScalableData.InstallChildCanister | src/canister/src/logic/store.rs:657-715 | No embedded image or a failed install is an error with no change; otherwise the record is overwritten as installed |
| Directory.ScalableData.InitializeFirstChildCanister | src/canister/src/logic/store.rs:348-408 | Refused without an image, for an unknown caller, or once any canister is registered; success leaves exactly the new installed child; a spawn that fails leaves the table empty, and an install that fails leaves the spawned record registered |
| Directory.ScalableData.CloseChildCanisterAndSpawnSibling | src/canister/src/logic/store.rs:410-518 | Fails without staged bytes or for an unregistered caller; after spawn and install the caller's record is closed before the forwarding call, whose outcome decides the reply; when the install fails (or there is no image) the spawned record stays registered beside the caller's open record |
| Directory.ScalableData.UpgradeChildCanister | src/canister/src/logic/store.rs:520-594 | Needs ReadWrite; an unknown child is NotFound; an equal version is "CANISTER_UP_TO_DATE"; on success only the version changes |
| Directory.ScalableData.ReinstallChildCanister | src/canister/src/logic/store.rs:596-615 | Needs ReadWrite; a successful reinstall rewrites the record as freshly installed |
| Directory.ScalableData.GetChildCanisterData | src/canister/src/logic/store.rs:747-771 | Every registered child is asked once, and the result joins, in the order they were asked, their groups as `get_filtered_child_data` gathers them with the `last > 1` guard |
| Aggregator.CallOrEmpty | src/canister/src/logic/store.rs:799-818 | A failed call reads as no bytes and `(0, 0)`; the chunk size defaults to 2,000,000 |
| Aggregator.FetchRangeSnoc | src/canister/src/logic/store.rs:782-787 | Fetching one more chunk appends its bytes |
| Aggregator.FetchRangeServed | src/canister/src/logic/store.rs:782-787 | Against a child that serves one payload, fetched chunks are that payload's windows |
| Aggregator.GatheredRoundTrip | src/canister/src/logic/store.rs:778-788 | With the corrected guard the gathered bytes are exactly the child's payload |
| Aggregator.AsWrittenDropsSecondChunk | src/canister/src/logic/store.rs:781 | As written, a payload between one and two chunks long loses everything after the first chunk |
| Aggregator.AsWrittenCounterexample | src/canister/src/logic/store.rs:781 | Three million bytes come back as two million |
| Aggregator.ChildGroups | src/canister/src/logic/store.rs:790-796 | With the corrected guard, bytes that do not decode give no groups for that child |
| Aggregator.ChildGroupsRoundTrip | src/canister/src/logic/store.rs:773-797 | With the corrected guard, a child serving the encoding of its groups hands back exactly those groups |
| Aggregator.ChildGroupsAsWritten | src/canister/src/logic/store.rs:773-797 | As written, bytes that do not decode give no groups for that child |
| Aggregator.AsWrittenOutsideBand | src/canister/src/logic/store.rs:778-788 | As written, a payload of at most one chunk or of at least two chunks is gathered whole |
| Aggregator.ChildGroupsAsWrittenRoundTrip | src/canister/src/logic/store.rs:773-797 | As written, a child serving the encoding of its groups outside that band hands back exactly those groups |
| Aggregator.GetFilteredChildData | src/canister/src/logic/store.rs:773-797 | The fetch loop, with the `last > 1` guard as written, returns the decoded bytes of chunk 0 and, when `last > 1`, of chunks `1..=last`, or nothing when they do not decode |
| Aggregator.CollectedContains | src/canister/src/logic/store.rs:747-771 | Every child's groups, as gathered by `get_filtered_child_data`, appear in the joined result |

## Left out

- Async suspension and interleaving. The calls to other canisters are
  outcome arguments, and their order relative to state changes follows the
  code.
- Unicode lower-casing. `to_lowercase` is modelled on ASCII letters only.
- Fixed-width integers. `usize` and `u64` are unbounded, so overflow is not
  modelled.
- Error messages, method names and the input lists of `api_error`. Only the
  error kind and tag are modelled.
- The `Data` entry store. It is a map. Its own errors carry an unmodelled
  tag (`GroupStore.MissingEntry`). `update_entry` on an existing key is
  taken to succeed. Its identifier generation is the fresh argument `newId`.
- `get_group`, `get_group_owner_and_privacy`, `get_metadata`,
  `get_whitelist` and `get_canisters` are plain reads, so they are not
  modelled.
- `time()`, cycles, `http_request`, metrics, `pre_upgrade`, `post_upgrade`
  and `sanity_check` are host plumbing, so they are not modelled.
- src/child/src/validation.rs is not part of this model. The validators'
  verdict is an argument.
- src/parent/src/methods.rs, src/parent/src/combine_store.rs and
  src/child/src/temp.rs are not part of this model.
- The default variants of `Location`, `Privacy` and `Asset` come from an
  unseen library. `GroupModel.DefaultGroup` takes them to be
  `NoLocation`, `Public` and `NoAsset`.
- `WasmDetails`: only its bytes and version are modelled. The embedded
  `CHILD_WASM` image and the staged `child_wasm_data` are arguments of the
  directory's constructor.
- The whitelist rights order `Owner < ReadWrite < Read` (the derived order of
  an unseen enum) is assumed.
- GroupQuery.OrderGroups: `sort_by` works in place. The model sorts a
  sequence by insertion. `GroupQuery.StableSortUnique` shows that every
  stable sort gives this result.
- GroupStore.Store.AddGroup: requires that `newId` is not in the table, which
  the entry store's identifier generation guarantees.
- Aggregator.Serves: a child is taken to answer every chunk request from one
  serialised payload. No round trip of the unseen Candid encoder is claimed;
  `Aggregator.ChildGroupsRoundTrip` assumes the decoder inverts the payload.
- Directory.ScalableData.GetChildCanisterData: the filters are passed through
  to the children unchanged. The fetch call is an argument that already
  carries them.

## Findings

| source | as written | input that shows it | evidently intended | confidence | as-written member | corrected member |
|---|---|---|---|---|---|---|
| src/canister/src/logic/store.rs:781 | Chunks `1..=last` are fetched only when `last > 1` | A child whose serialised groups are 3,000,000 bytes, with the default chunk size of 2,000,000: chunk 0 reports `last == 1`, so the second chunk is never fetched and the joined bytes are cut to 2,000,000 | Fetch the remaining chunks whenever `last >= 1`, so the joined bytes are the child's whole payload | not executed | Aggregator.AsWrittenDropsSecondChunk | Aggregator.GatheredRoundTrip |
