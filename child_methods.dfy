/** The child canister's public endpoints (src/child/src/methods.rs): the
    guards in front of the store. Every group edit first asks
    `check_permission` for the required action; the chunked export answers
    only the parent; a member count is accepted only from the member
    canister it is about.

    `caller()` is the parameter `caller`. The member canister's answer to
    `get_member_roles` is `memberRoles`, and the shared `has_permission`
    is `hasPermission`. */
module ChildMethods {
  import opened Wrappers
  import opened GroupModel
  import opened GroupQuery
  import opened GroupStore

  /** `get_groups`: always `Ok`, wrapping the store's page. */
  method GetGroups<P>(store: Store, limit: nat, page: nat, filters: seq<GroupFilter>, filterType: FilterType,
                      sort: GroupSort, pager: (seq<GroupResponse>, nat, nat) -> P)
    returns (r: Result<P, ApiError>, ghost filtered: seq<GroupResponse>, ghost ordered: seq<GroupResponse>)
    ensures r == Ok(pager(ordered, limit, page))
    ensures DistinctIds(filtered)
    ensures forall x :: x in filtered <==> x in LiveSet(store.groups, store.defaultRoles) && Passes(x, filters, filterType)
    ensures Sorted(ordered, sort) && multiset(ordered) == multiset(filtered)
    ensures forall k :: WithKey(ordered, sort, k) == WithKey(filtered, sort, k)
    ensures DistinctIds(ordered)
  {
    var paged;
    paged, filtered, ordered := store.GetGroups(limit, page, filters, filterType, sort, pager);
    r := Ok(paged);
  }

  /** `get_chunked_data`: any caller other than the parent gets no bytes
      and `(0, 0)`. */
  method GetChunkedData(store: Store, caller: Principal, filters: seq<GroupFilter>, filterType: FilterType,
                        chunk: nat, max: nat, serialize: seq<GroupResponse> -> Option<seq<byte>>)
    returns (r: Option<ChunkReply>, ghost filtered: seq<GroupResponse>)
    ensures caller != store.parent ==> r == Some(ChunkReply([], 0, 0))
    ensures caller == store.parent ==>
      && DistinctIds(filtered)
      && (forall x :: x in filtered <==> x in LiveSet(store.groups, store.defaultRoles) && Passes(x, filters, filterType))
      && (serialize(filtered).None? ==> r == Some(ChunkReply([], 0, 0)))
      && (serialize(filtered).Some? ==> r == ChunkWindow(serialize(filtered).value, chunk, max))
  {
    if caller != store.parent {
      return Some(ChunkReply([], 0, 0)), [];
    }
    r, filtered := store.GetChunkedData(filters, filterType, chunk, max, serialize);
  }

  /** `get_groups_by_id`: always `Ok`. */
  method GetGroupsById(store: Store, ids: seq<Principal>) returns (r: Result<seq<GroupResponse>, ApiError>)
    ensures r == Ok(ById(store.groups, ids, store.defaultRoles))
  {
    var groups := store.GetGroupsById(ids);
    r := Ok(groups);
  }

  /** `edit_group`: Edit permission, then `update_group`. */
  method EditGroup(store: Store, caller: Principal, id: Principal, u: UpdateGroup,
                   memberRoles: Result<(Principal, seq<string>), string>,
                   hasPermission: (seq<string>, seq<GroupRole>, PermissionAction) -> bool,
                   validation: Option<ApiError>, now: nat)
    returns (r: Result<GroupResponse, ApiError>)
    modifies store
    ensures var check := old(store.CheckPermission(caller, id, memberRoles, EditAction, hasPermission));
      && (check.Err? ==> r == Err(check.error) && store.groups == old(store.groups))
      && (check.Ok? ==> Outcome(r, store.groups)
                        == UpdateGroupOutcome(old(store.groups), id, u, validation, now, store.defaultRoles))
  {
    match store.CheckPermission(caller, id, memberRoles, EditAction, hasPermission)
    case Err(e) => r := Err(e);
    case Ok(_) => r := store.UpdateGroup(id, u, validation, now);
  }

  /** `delete_group`: Delete permission, then `delete_group` for the
      confirmed caller. */
  method DeleteGroup(store: Store, caller: Principal, id: Principal,
                     memberRoles: Result<(Principal, seq<string>), string>,
                     hasPermission: (seq<string>, seq<GroupRole>, PermissionAction) -> bool, now: nat)
    returns (r: Result<Group, ApiError>)
    modifies store
    ensures var check := old(store.CheckPermission(caller, id, memberRoles, DeleteAction, hasPermission));
      && (check.Err? ==> r == Err(check.error) && store.groups == old(store.groups))
      && (check.Ok? ==> Outcome(r, store.groups) == DeleteGroupOutcome(old(store.groups), caller, id, now))
  {
    match store.CheckPermission(caller, id, memberRoles, DeleteAction, hasPermission)
    case Err(e) => r := Err(e);
    case Ok(confirmed) => r := store.DeleteGroup(confirmed, id, now);
  }

  /** `add_role`: Edit permission, then `add_role`. */
  method AddRole(store: Store, caller: Principal, id: Principal, name: string, color: string, index: nat,
                 memberRoles: Result<(Principal, seq<string>), string>,
                 hasPermission: (seq<string>, seq<GroupRole>, PermissionAction) -> bool, now: nat)
    returns (r: Result<GroupRole, ApiError>)
    modifies store
    ensures var check := old(store.CheckPermission(caller, id, memberRoles, EditAction, hasPermission));
      && (check.Err? ==> r == Err(check.error) && store.groups == old(store.groups))
      && (check.Ok? ==> Outcome(r, store.groups)
                        == AddRoleOutcome(old(store.groups), caller, id, name, color, index, now,
                                          store.defaultRoles, store.readOnly))
  {
    match store.CheckPermission(caller, id, memberRoles, EditAction, hasPermission)
    case Err(e) => r := Err(e);
    case Ok(confirmed) => r := store.AddRole(confirmed, id, name, color, index, now);
  }

  /** `remove_role`: Edit permission, then `remove_role`, which never
      changes the store. */
  method RemoveRole(store: Store, caller: Principal, id: Principal, name: string,
                    memberRoles: Result<(Principal, seq<string>), string>,
                    hasPermission: (seq<string>, seq<GroupRole>, PermissionAction) -> bool, now: nat)
    returns (r: Result<bool, ApiError>)
    modifies store
    ensures r.Err? && store.groups == old(store.groups)
    ensures var check := old(store.CheckPermission(caller, id, memberRoles, EditAction, hasPermission));
      && (check.Err? ==> r == Err(check.error))
      && (check.Ok? ==> r == RemoveRoleOutcome(old(store.groups), caller, id, name).reply)
  {
    match store.CheckPermission(caller, id, memberRoles, EditAction, hasPermission)
    case Err(e) => r := Err(e);
    case Ok(confirmed) => r := store.RemoveRole(confirmed, id, name, now);
  }

  /** `edit_role_permissions`: Edit permission, then
      `update_role_permissions`. */
  method EditRolePermissions(store: Store, caller: Principal, id: Principal, name: string,
                             post: seq<PostPermission>,
                             memberRoles: Result<(Principal, seq<string>), string>,
                             hasPermission: (seq<string>, seq<GroupRole>, PermissionAction) -> bool, now: nat)
    returns (r: Result<bool, ApiError>)
    modifies store
    ensures var check := old(store.CheckPermission(caller, id, memberRoles, EditAction, hasPermission));
      && (check.Err? ==> r == Err(check.error) && store.groups == old(store.groups))
      && (check.Ok? ==> Outcome(r, store.groups)
                        == UpdateRolePermissionsOutcome(old(store.groups), caller, id, name, post, now, store.readOnly))
  {
    match store.CheckPermission(caller, id, memberRoles, EditAction, hasPermission)
    case Err(e) => r := Err(e);
    case Ok(confirmed) => r := store.UpdateRolePermissions(confirmed, id, name, post, now);
  }

  /** `update_member_count`: only the member canister itself may report
      its count; anyone else gets `Err(false)`. */
  method UpdateMemberCount(store: Store, caller: Principal, id: Principal, canister: Principal, count: nat,
                           kindOf: Principal -> string)
    returns (r: Result<(), bool>)
    modifies store
    ensures caller != canister ==> r == Err(false) && store.groups == old(store.groups)
    ensures caller == canister ==> (r, store.groups) == MemberCountOutcome(old(store.groups), id, canister, count, kindOf)
  {
    if caller == canister {
      r := store.UpdateMemberCount(id, canister, count, kindOf);
    } else {
      r := Err(false);
    }
  }
}
