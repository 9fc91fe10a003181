/** The child canister's group store (src/child/src/store.rs): a table from
    group identifier to `Group`, the operations that change it, and the
    read paths that map stored records to responses.

    The entry store (`Data`) is modelled as the map `groups`. Its helpers
    that are not part of this model are parameters: the default roles and
    the read-only permission set are fixed when the store is built, the
    validators, the identifier decoder, the serialiser, the pager and the
    permission resolver are passed in, and every outbound call is an
    outcome argument. `time()` is the argument `now`. */
module GroupStore {
  import opened Wrappers
  import opened GroupModel
  import opened GroupQuery

  // ---------------------------------------------------------------------
  // Member totals
  // ---------------------------------------------------------------------

  ghost function PickKey(m: map<Principal, nat>): (k: Principal)
    requires m != map[]
    ensures k in m
  {
    var k :| k in m; k
  }

  /** The sum of the per-canister member counts, taken in no fixed order. */
  ghost function MemberTotal(m: map<Principal, nat>): nat
    decreases |m|
  {
    if m == map[] then 0
    else
      var k := PickKey(m);
      assert (m - {k}).Keys == m.Keys - {k};
      m[k] + MemberTotal(m - {k})
  }

  /** The total does not depend on which key is taken first. */
  lemma {:induction false} MemberTotalRemove(m: map<Principal, nat>, k: Principal)
    requires k in m
    ensures MemberTotal(m) == m[k] + MemberTotal(m - {k})
    decreases |m|
  {
    var j := PickKey(m);
    if j != k {
      assert (m - {j}).Keys == m.Keys - {j};
      assert (m - {k}).Keys == m.Keys - {k};
      MemberTotalRemove(m - {j}, k);
      MemberTotalRemove(m - {k}, j);
      assert m - {j} - {k} == m - {k} - {j};
    }
  }

  /** Setting one canister's count moves the total by exactly the change
      in that count. */
  lemma MemberTotalUpdate(m: map<Principal, nat>, k: Principal, v: nat)
    ensures MemberTotal(m[k := v]) + (if k in m then m[k] else 0) == MemberTotal(m) + v
  {
    MemberTotalRemove(m[k := v], k);
    if k in m {
      MemberTotalRemove(m, k);
      assert m[k := v] - {k} == m - {k};
    } else {
      assert m[k := v] - {k} == m;
    }
  }

  /** The initial count of a new group is its one owner. */
  lemma MemberTotalSingle(c: Principal, n: nat)
    ensures MemberTotal(map[c := n]) == n
  {
    MemberTotalRemove(map[c := n], c);
    assert map[c := n] - {c} == map[];
  }

  /** `.into_iter().map(|(_, v)| v).sum()` over the count map. */
  method SumMemberCounts(m: map<Principal, nat>) returns (total: nat)
    ensures total == MemberTotal(m)
  {
    total := 0;
    var rest := m;
    while rest != map[]
      invariant total + MemberTotal(rest) == MemberTotal(m)
      decreases |rest|
    {
      var k :| k in rest;
      MemberTotalRemove(rest, k);
      assert (rest - {k}).Keys == rest.Keys - {k};
      total := total + rest[k];
      rest := rest - {k};
    }
  }

  // ---------------------------------------------------------------------
  // Responses
  // ---------------------------------------------------------------------

  /** The response for a stored group: custom roles followed by the default
      roles, and the counts of all member canisters summed. */
  ghost function Response(id: Principal, g: Group, defaults: seq<GroupRole>): GroupResponse {
    GroupResponse(
      identifier := id, name := g.name, description := g.description,
      website := g.website, location := g.location, privacy := g.privacy,
      created_by := g.created_by, owner := g.owner,
      matrix_space_id := g.matrix_space_id, image := g.image,
      banner_image := g.banner_image, tags := g.tags,
      roles := g.roles + defaults, member_count := MemberTotal(g.member_count),
      is_deleted := g.is_deleted, updated_on := g.updated_on, created_on := g.created_on)
  }

  /** `map_group_to_group_response`. */
  method MapToResponse(id: Principal, g: Group, defaults: seq<GroupRole>) returns (r: GroupResponse)
    ensures r == Response(id, g, defaults)
    ensures r.identifier == id && r.roles[..|g.roles|] == g.roles && r.roles[|g.roles|..] == defaults
    ensures r.member_count == MemberTotal(g.member_count)
  {
    var total := SumMemberCounts(g.member_count);
    r := GroupResponse(
      identifier := id, name := g.name, description := g.description,
      website := g.website, location := g.location, privacy := g.privacy,
      created_by := g.created_by, owner := g.owner,
      matrix_space_id := g.matrix_space_id, image := g.image,
      banner_image := g.banner_image, tags := g.tags,
      roles := g.roles + defaults, member_count := total,
      is_deleted := g.is_deleted, updated_on := g.updated_on, created_on := g.created_on);
  }

  /** The responses of every group that is not deleted. */
  ghost function LiveSet(t: map<Principal, Group>, defaults: seq<GroupRole>): set<GroupResponse> {
    set id | id in t && !t[id].is_deleted :: Response(id, t[id], defaults)
  }

  /** A listing of the live groups in the table's (unspecified) order. */
  ghost predicate IsLiveListing(live: seq<GroupResponse>, t: map<Principal, Group>, defaults: seq<GroupRole>) {
    && DistinctIds(live)
    && forall x :: x in live <==> x in LiveSet(t, defaults)
  }

  /** Whether a response passes the filters under the given combination. */
  predicate Passes(x: GroupResponse, filters: seq<GroupFilter>, filterType: FilterType) {
    match filterType
    case And => AllMatch(x, filters)
    case Or => AnyMatch(x, filters)
  }

  // ---------------------------------------------------------------------
  // Roles and permissions
  // ---------------------------------------------------------------------

  predicate HasRoleNamed(roles: seq<GroupRole>, name: string) {
    exists x :: x in roles && x.name == name
  }

  /** `.iter().find(|r| r.name == name)`. */
  function FindRole(roles: seq<GroupRole>, name: string): (r: Option<GroupRole>)
    ensures r.Some? ==> r.value in roles && r.value.name == name
    ensures r.None? <==> !HasRoleNamed(roles, name)
    ensures r.Some? ==> exists i :: 0 <= i < |roles| && roles[i] == r.value && NoneNamedBefore(roles, name, i)
  {
    if roles == [] then None
    else if roles[0].name == name then
      assert NoneNamedBefore(roles, name, 0);
      Some(roles[0])
    else
      assert forall x :: x in roles <==> x == roles[0] || x in roles[1..];
      var r := FindRole(roles[1..], name);
      assert r.Some? ==> exists i :: 0 <= i < |roles| && roles[i] == r.value && NoneNamedBefore(roles, name, i) by {
        if r.Some? {
          var i :| 0 <= i < |roles[1..]| && roles[1..][i] == r.value && NoneNamedBefore(roles[1..], name, i);
          assert roles[i + 1] == r.value;
          assert forall j :: 0 < j < i + 1 ==> roles[j] == roles[1..][j - 1];
          assert NoneNamedBefore(roles, name, i + 1);
        }
      }
      r
  }

  /** No role before position `i` carries the name: a lookup stopped at
      `i` returned the first match. */
  predicate NoneNamedBefore(roles: seq<GroupRole>, name: string, i: nat)
    requires i <= |roles|
  {
    forall j :: 0 <= j < i ==> roles[j].name != name
  }

  /** `.iter().find(|r| r.name == name && r.protected)`. */
  function FindProtectedRole(roles: seq<GroupRole>, name: string): (r: Option<GroupRole>)
    ensures r.Some? ==> r.value in roles && r.value.name == name && r.value.protected
    ensures r.None? <==> forall x :: x in roles && x.name == name ==> !x.protected
  {
    if roles == [] then None
    else if roles[0].name == name && roles[0].protected then Some(roles[0])
    else
      assert forall x :: x in roles <==> x == roles[0] || x in roles[1..];
      FindProtectedRole(roles[1..], name)
  }

  /** `.iter().filter(|r| r.name != name).cloned().collect()`. */
  function WithoutName(roles: seq<GroupRole>, name: string): (r: seq<GroupRole>)
    ensures forall x :: x in r <==> x in roles && x.name != name
    ensures IsSubsequence(r, roles)
  {
    if roles == [] then []
    else
      var rest := WithoutName(roles[1..], name);
      assert forall x :: x in roles <==> x == roles[0] || x in roles[1..];
      if roles[0].name != name then
        assert ([roles[0]] + rest)[1..] == rest;
        [roles[0]] + rest
      else rest
  }

  /** How many roles carry the given name. */
  function CountNamed(roles: seq<GroupRole>, name: string): nat {
    if roles == [] then 0
    else CountNamed(roles[..|roles| - 1], name) + (if roles[|roles| - 1].name == name then 1 else 0)
  }

  lemma {:induction false} CountNamedAbsent(roles: seq<GroupRole>, name: string)
    requires !HasRoleNamed(roles, name)
    ensures CountNamed(roles, name) == 0
  {
    if roles != [] {
      assert roles[|roles| - 1] in roles;
      assert forall x :: x in roles[..|roles| - 1] ==> x in roles;
      CountNamedAbsent(roles[..|roles| - 1], name);
    }
  }

  lemma CountNamedSnoc(roles: seq<GroupRole>, x: GroupRole, name: string)
    ensures CountNamed(roles + [x], name) == CountNamed(roles, name) + (if x.name == name then 1 else 0)
  {
    assert (roles + [x])[..|roles|] == roles;
  }

  predicate HasPermissionNamed(ps: seq<Permission>, name: string) {
    exists q :: q in ps && q.name == name
  }

  /** `.iter().find(|r| r.name == name)` over the read-only permission set. */
  function FindPermission(ps: seq<Permission>, name: string): (r: Option<Permission>)
    ensures r.Some? ==> r.value in ps && r.value.name == name
    ensures r.None? <==> !HasPermissionNamed(ps, name)
    ensures r.Some? ==> exists i :: 0 <= i < |ps| && ps[i] == r.value && NoPermissionBefore(ps, name, i)
  {
    if ps == [] then None
    else if ps[0].name == name then
      assert NoPermissionBefore(ps, name, 0);
      Some(ps[0])
    else
      assert forall q :: q in ps <==> q == ps[0] || q in ps[1..];
      var r := FindPermission(ps[1..], name);
      assert r.Some? ==> exists i :: 0 <= i < |ps| && ps[i] == r.value && NoPermissionBefore(ps, name, i) by {
        if r.Some? {
          var i :| 0 <= i < |ps[1..]| && ps[1..][i] == r.value && NoPermissionBefore(ps[1..], name, i);
          assert ps[i + 1] == r.value;
          assert forall j :: 0 < j < i + 1 ==> ps[j] == ps[1..][j - 1];
          assert NoPermissionBefore(ps, name, i + 1);
        }
      }
      r
  }

  /** No permission before position `i` carries the name. */
  predicate NoPermissionBefore(ps: seq<Permission>, name: string, i: nat)
    requires i <= |ps|
  {
    forall j :: 0 <= j < i ==> ps[j].name != name
  }

  /** One supplied permission, checked against the required set: unknown
      names become unprotected with the supplied actions, protected
      required permissions keep their default actions, and the other
      required permissions take the supplied actions. */
  function Resolve(p: PostPermission, required: seq<Permission>): (q: Permission)
    ensures q.name == p.name
    ensures !HasPermissionNamed(required, p.name) ==> !q.protected && q.actions == p.actions
    ensures q.protected ==> q in required
    ensures (exists d :: d in required && d.name == p.name && !d.protected) && !q.protected ==> q.actions == p.actions
    ensures HasPermissionNamed(required, p.name) ==> q.protected == FindPermission(required, p.name).value.protected
  {
    match FindPermission(required, p.name)
    case None => Permission(p.name, false, p.actions)
    case Some(d) =>
      if d.protected then Permission(d.name, d.protected, d.actions)
      else Permission(d.name, d.protected, p.actions)
  }

  /** The `for_each` that builds the new permission list. */
  method ResolvePermissions(post: seq<PostPermission>, required: seq<Permission>) returns (ps: seq<Permission>)
    ensures |ps| == |post|
    ensures forall i :: 0 <= i < |ps| ==> ps[i] == Resolve(post[i], required)
    // A caller can never change a protected permission, and an unknown name
    // comes through unprotected with the actions the caller asked for.
    ensures forall i :: 0 <= i < |ps| && ps[i].protected ==> ps[i] in required && ps[i].name == post[i].name
    ensures forall i :: 0 <= i < |ps| && !HasPermissionNamed(required, post[i].name) ==>
      ps[i] == Permission(post[i].name, false, post[i].actions)
  {
    ps := [];
    for i := 0 to |post|
      invariant |ps| == i
      invariant forall j :: 0 <= j < i ==> ps[j] == Resolve(post[j], required)
    {
      var q: Permission;
      match FindPermission(required, post[i].name) {
        case None => q := Permission(post[i].name, false, post[i].actions);
        case Some(d) =>
          if d.protected {
            q := Permission(d.name, d.protected, d.actions);
          } else {
            q := Permission(d.name, d.protected, post[i].actions);
          }
      }
      ps := ps + [q];
    }
  }

  // ---------------------------------------------------------------------
  // Outcomes of the mutating operations
  // ---------------------------------------------------------------------

  /** A reply together with the table after the call. */
  datatype Outcome<T> = Outcome(reply: Result<T, ApiError>, table: map<Principal, Group>)

  /** The entry store's own not-found error; its tag is not part of this model. */
  const MissingEntry: ApiError := ApiError(NotFound, "")

  /** Every entry except `id` is untouched, and no entry appears or vanishes. */
  ghost predicate OthersKept(t: map<Principal, Group>, t': map<Principal, Group>, id: Principal) {
    && t'.Keys == t.Keys
    && forall k :: k in t && k != id ==> t'[k] == t[k]
  }

  /** The fields `update_group` does not touch are equal in `g` and `g'`. */
  predicate SameIdentity(g: Group, g': Group) {
    && g'.owner == g.owner && g'.created_by == g.created_by
    && g'.matrix_space_id == g.matrix_space_id
    && g'.privacy_gated_type_amount == g.privacy_gated_type_amount
    && g'.roles == g.roles && g'.is_deleted == g.is_deleted
    && g'.member_count == g.member_count && g'.wallets == g.wallets
    && g'.created_on == g.created_on
  }

  /** `update_group`: a validation error first, then a missing entry, then a
      deleted group; otherwise the nine editable fields are replaced. */
  ghost function UpdateGroupOutcome(t: map<Principal, Group>, id: Principal, u: UpdateGroup,
                                    validation: Option<ApiError>, now: nat, defaults: seq<GroupRole>)
    : (o: Outcome<GroupResponse>)
    ensures validation.Some? ==> o == Outcome(Err(validation.value), t)
    ensures validation.None? && id !in t ==> o == Outcome(Err(MissingEntry), t)
    ensures validation.None? && id in t && t[id].is_deleted ==> o == Outcome(Err(ApiError(BadRequest, "DELETED_GROUP")), t)
    ensures o.reply.Ok? <==> validation.None? && id in t && !t[id].is_deleted
    ensures o.reply.Err? ==> o.table == t
    ensures o.reply.Ok? ==> OthersKept(t, o.table, id) && SameIdentity(t[id], o.table[id])
    ensures o.reply.Ok? ==> var g := o.table[id];
      && g.name == u.name && g.description == u.description && g.website == u.website
      && g.location == u.location && g.privacy == u.privacy && g.image == u.image
      && g.banner_image == u.banner_image && g.tags == u.tags && g.updated_on == now
      && o.reply.value == Response(id, g, defaults)
  {
    if validation.Some? then Outcome(Err(validation.value), t)
    else if id !in t then Outcome(Err(MissingEntry), t)
    else if t[id].is_deleted then Outcome(Err(ApiError(BadRequest, "DELETED_GROUP")), t)
    else
      var g := t[id].(name := u.name, description := u.description, website := u.website,
                      location := u.location, privacy := u.privacy, image := u.image,
                      banner_image := u.banner_image, tags := u.tags, updated_on := now);
      Outcome(Ok(Response(id, g, defaults)), t[id := g])
  }

  /** `delete_group`: only the owner may delete, and deletion only sets the
      flag; the entry stays in the table. */
  function DeleteGroupOutcome(t: map<Principal, Group>, caller: Principal, id: Principal, now: nat)
    : (o: Outcome<Group>)
    ensures id !in t ==> o == Outcome(Err(MissingEntry), t)
    ensures id in t && t[id].owner != caller ==> o == Outcome(Err(ApiError(Unauthorized, "CANT_DELETE_GROUP")), t)
    ensures o.reply.Ok? <==> id in t && t[id].owner == caller
    ensures o.reply.Err? ==> o.table == t
    ensures o.reply.Ok? ==>
      && OthersKept(t, o.table, id) && id in o.table
      && o.table[id] == o.reply.value && o.reply.value.is_deleted && o.reply.value.updated_on == now
      && o.reply.value.(is_deleted := t[id].is_deleted, updated_on := t[id].updated_on) == t[id]
  {
    if id !in t then Outcome(Err(MissingEntry), t)
    else if t[id].owner != caller then Outcome(Err(ApiError(Unauthorized, "CANT_DELETE_GROUP")), t)
    else
      var g := t[id].(is_deleted := true, updated_on := now);
      Outcome(Ok(g), t[id := g])
  }

  /** A role name is taken when a custom or a default role carries it. */
  predicate NameTaken(roles: seq<GroupRole>, defaults: seq<GroupRole>, name: string) {
    HasRoleNamed(roles, name) || HasRoleNamed(defaults, name)
  }

  /** `add_role`: owner only, name not taken among custom or default roles;
      then one unprotected role with the read-only permissions is appended. */
  function AddRoleOutcome(t: map<Principal, Group>, caller: Principal, id: Principal, name: string,
                          color: string, index: nat, now: nat,
                          defaults: seq<GroupRole>, readOnly: seq<Permission>)
    : (o: Outcome<GroupRole>)
    ensures id !in t ==> o == Outcome(Err(MissingEntry), t)
    ensures id in t && t[id].owner != caller ==> o == Outcome(Err(ApiError(Unauthorized, "UNAUTHORIZED")), t)
    ensures id in t && t[id].owner == caller && NameTaken(t[id].roles, defaults, name) ==>
      o == Outcome(Err(ApiError(BadRequest, "EXISTING_ROLE")), t)
    ensures o.reply.Ok? <==> id in t && t[id].owner == caller && !NameTaken(t[id].roles, defaults, name)
    ensures o.reply.Err? ==> o.table == t
    ensures o.reply.Ok? ==>
      && OthersKept(t, o.table, id)
      && o.reply.value == GroupRole(name, false, readOnly, color, Some(index))
      && o.table[id].roles == t[id].roles + [o.reply.value]
      && o.table[id] == t[id].(roles := o.table[id].roles, updated_on := now)
  {
    if id !in t then Outcome(Err(MissingEntry), t)
    else if t[id].owner != caller then Outcome(Err(ApiError(Unauthorized, "UNAUTHORIZED")), t)
    else if NameTaken(t[id].roles, defaults, name) then Outcome(Err(ApiError(BadRequest, "EXISTING_ROLE")), t)
    else
      var role := GroupRole(name, false, readOnly, color, Some(index));
      var g := t[id].(roles := t[id].roles + [role], updated_on := now);
      Outcome(Ok(role), t[id := g])
  }

  /** `remove_role` as written: the lookup only finds protected roles, and a
      protected role is refused, so the call never succeeds and never
      changes the table. */
  function RemoveRoleOutcome(t: map<Principal, Group>, caller: Principal, id: Principal, name: string)
    : (o: Outcome<bool>)
    ensures id !in t ==> o.reply == Err(MissingEntry)
    ensures id in t && t[id].owner != caller ==> o.reply == Err(ApiError(Unauthorized, "UNAUTHORIZED"))
    ensures id in t && t[id].owner == caller ==>
      o.reply == Err(if FindProtectedRole(t[id].roles, name).Some?
                     then ApiError(BadRequest, "PROTECTED_ROLE")
                     else ApiError(NotFound, "ROLE_NOT_FOUND"))
    ensures o.reply.Err? && o.table == t
  {
    if id !in t then Outcome(Err(MissingEntry), t)
    else if t[id].owner != caller then Outcome(Err(ApiError(Unauthorized, "UNAUTHORIZED")), t)
    else
      match FindProtectedRole(t[id].roles, name)
      case None => Outcome(Err(ApiError(NotFound, "ROLE_NOT_FOUND")), t)
      case Some(role) => Outcome(Err(ApiError(BadRequest, "PROTECTED_ROLE")), t)
  }

  /** `update_role_permissions`: owner only, and the role must be a custom
      role of the group; the role is then rebuilt with resolved permissions,
      every role of that name is dropped and the rebuilt one appended. */
  function UpdateRolePermissionsOutcome(t: map<Principal, Group>, caller: Principal, id: Principal,
                                        name: string, post: seq<PostPermission>, now: nat,
                                        readOnly: seq<Permission>)
    : (o: Outcome<bool>)
    ensures id !in t ==> o == Outcome(Err(MissingEntry), t)
    ensures id in t && t[id].owner != caller ==> o == Outcome(Err(ApiError(Unauthorized, "UNAUTHORIZED")), t)
    ensures id in t && t[id].owner == caller && !HasRoleNamed(t[id].roles, name) ==>
      o == Outcome(Err(ApiError(NotFound, "ROLE_NOT_FOUND")), t)
    ensures o.reply.Ok? <==> id in t && t[id].owner == caller && HasRoleNamed(t[id].roles, name)
    ensures o.reply.Err? ==> o.table == t
    ensures o.reply.Ok? ==>
      && o.reply.value && OthersKept(t, o.table, id)
      && var old_role := FindRole(t[id].roles, name).value;
         var roles := o.table[id].roles;
         && o.table[id] == t[id].(roles := roles, updated_on := now)
         && |roles| > 0
         && roles[..|roles| - 1] == WithoutName(t[id].roles, name)
         && roles[|roles| - 1] == old_role.(permissions := roles[|roles| - 1].permissions)
         && |roles[|roles| - 1].permissions| == |post|
         && (forall i :: 0 <= i < |post| ==> roles[|roles| - 1].permissions[i] == Resolve(post[i], readOnly))
  {
    if id !in t then Outcome(Err(MissingEntry), t)
    else if t[id].owner != caller then Outcome(Err(ApiError(Unauthorized, "UNAUTHORIZED")), t)
    else
      match FindRole(t[id].roles, name)
      case None => Outcome(Err(ApiError(NotFound, "ROLE_NOT_FOUND")), t)
      case Some(role) =>
        var ps := seq(|post|, i requires 0 <= i < |post| => Resolve(post[i], readOnly));
        var updated := GroupRole(role.name, role.protected, ps, role.color, role.index);
        var g := t[id].(roles := WithoutName(t[id].roles, role.name) + [updated], updated_on := now);
        Outcome(Ok(true), t[id := g])
  }

  /** After a successful permission update exactly one role has that name. */
  lemma RolePermissionsLeaveOneRole(t: map<Principal, Group>, caller: Principal, id: Principal,
                                    name: string, post: seq<PostPermission>, now: nat,
                                    readOnly: seq<Permission>)
    requires UpdateRolePermissionsOutcome(t, caller, id, name, post, now, readOnly).reply.Ok?
    ensures var o := UpdateRolePermissionsOutcome(t, caller, id, name, post, now, readOnly);
      CountNamed(o.table[id].roles, name) == 1
  {
    var o := UpdateRolePermissionsOutcome(t, caller, id, name, post, now, readOnly);
    var roles := o.table[id].roles;
    var rest := WithoutName(t[id].roles, name);
    assert roles == rest + [roles[|roles| - 1]];
    CountNamedAbsent(rest, name);
    CountNamedSnoc(rest, roles[|roles| - 1], name);
  }

  /** Role names stay distinct across a successful `add_role`. */
  lemma AddRoleKeepsNamesDistinct(t: map<Principal, Group>, caller: Principal, id: Principal, name: string,
                                  color: string, index: nat, now: nat,
                                  defaults: seq<GroupRole>, readOnly: seq<Permission>)
    requires id in t && (forall n :: CountNamed(t[id].roles, n) <= 1)
    requires AddRoleOutcome(t, caller, id, name, color, index, now, defaults, readOnly).reply.Ok?
    ensures var o := AddRoleOutcome(t, caller, id, name, color, index, now, defaults, readOnly);
      forall n :: CountNamed(o.table[id].roles, n) <= 1
  {
    var o := AddRoleOutcome(t, caller, id, name, color, index, now, defaults, readOnly);
    forall n ensures CountNamed(o.table[id].roles, n) <= 1 {
      CountNamedSnoc(t[id].roles, o.reply.value, n);
      if n == name {
        CountNamedAbsent(t[id].roles, name);
      }
    }
  }

  /** `update_member_count`: the identifier must decode to a group and the
      group must exist; the canister's count is then set. */
  function MemberCountOutcome(t: map<Principal, Group>, id: Principal, canister: Principal, count: nat,
                              kindOf: Principal -> string)
    : (o: (Result<(), bool>, map<Principal, Group>))
    ensures o.0.Ok? <==> kindOf(id) == "grp" && id in t
    ensures o.0.Err? ==> o.0.error == false && o.1 == t
    ensures o.0.Ok? ==>
      && OthersKept(t, o.1, id)
      && o.1[id] == t[id].(member_count := o.1[id].member_count)
      && o.1[id].member_count.Keys == t[id].member_count.Keys + {canister}
      && o.1[id].member_count[canister] == count
      && (forall c :: c in t[id].member_count && c != canister ==> o.1[id].member_count[c] == t[id].member_count[c])
  {
    if kindOf(id) != "grp" then (Err(false), t)
    else if id !in t then (Err(false), t)
    else
      var g := t[id].(member_count := t[id].member_count[canister := count]);
      (Ok(()), t[id := g])
  }

  /** Reporting a count moves the group's summed total by the change in
      that canister's count. */
  lemma MemberCountMovesTotal(t: map<Principal, Group>, id: Principal, canister: Principal, count: nat,
                              kindOf: Principal -> string)
    requires MemberCountOutcome(t, id, canister, count, kindOf).0.Ok?
    ensures var t' := MemberCountOutcome(t, id, canister, count, kindOf).1;
      var m := t[id].member_count;
      MemberTotal(t'[id].member_count) + (if canister in m then m[canister] else 0) == MemberTotal(m) + count
  {
    MemberTotalUpdate(t[id].member_count, canister, count);
  }

  // ---------------------------------------------------------------------
  // Groups by identifier
  // ---------------------------------------------------------------------

  /** The live groups among `ids`, in the order of `ids`. */
  ghost function ById(t: map<Principal, Group>, ids: seq<Principal>, defaults: seq<GroupRole>): (r: seq<GroupResponse>)
    ensures |r| <= |ids|
    ensures forall x :: x in r ==>
      && x.identifier in ids && x.identifier in t
      && !t[x.identifier].is_deleted && x == Response(x.identifier, t[x.identifier], defaults)
    ensures forall i :: 0 <= i < |ids| && ids[i] in t && !t[ids[i]].is_deleted ==>
      Response(ids[i], t[ids[i]], defaults) in r
  {
    if ids == [] then []
    else
      var init := ById(t, ids[..|ids| - 1], defaults);
      var id := ids[|ids| - 1];
      assert forall i :: 0 <= i < |ids| - 1 ==> ids[..|ids| - 1][i] == ids[i];
      assert forall p :: p in ids[..|ids| - 1] ==> p in ids;
      if id in t && !t[id].is_deleted then init + [Response(id, t[id], defaults)] else init
  }

  // ---------------------------------------------------------------------
  // The store
  // ---------------------------------------------------------------------

  class Store {
    /** `DATA`: identifier to stored group. */
    var groups: map<Principal, Group>
    /** The parent (directory) canister, the only caller of the chunked export. */
    const parent: Principal
    /** `default_roles()`, appended to every group's roles when read. */
    const defaultRoles: seq<GroupRole>
    /** `get_read_only_permissions()`. */
    const readOnly: seq<Permission>

    constructor(parent: Principal, defaultRoles: seq<GroupRole>, readOnly: seq<Permission>)
      ensures groups == map[]
      ensures this.parent == parent && this.defaultRoles == defaultRoles && this.readOnly == readOnly
    {
      groups := map[];
      this.parent := parent;
      this.defaultRoles := defaultRoles;
      this.readOnly := readOnly;
    }

    /** `add_group`. `validation` is the validator's verdict, `atCapacity`
        whether the entry store refuses the insert, `newId` the identifier
        it generates, and the two outcomes are those of spawning a sibling
        and of registering the owner with the member canister.
        `ownerTime` is the `time()` that `add_owner` stamps after its
        call returns. */
    method AddGroup(caller: Principal, post: PostGroup, memberCanister: Principal, now: nat,
                    validation: Option<ApiError>, atCapacity: bool, newId: Principal,
                    siblingOutcome: Result<(), ApiError>, ownerOutcome: Result<(), ApiError>, ownerTime: nat)
      returns (r: Result<GroupResponse, ApiError>)
      requires newId !in groups
      modifies this
      ensures validation.Some? ==> r == Err(validation.value) && groups == old(groups)
      ensures validation.None? && atCapacity ==>
        && groups == old(groups)
        && r == (if siblingOutcome.Ok? then Err(ApiError(CanisterAtCapacity, "")) else Err(siblingOutcome.error))
      ensures validation.None? && !atCapacity && ownerOutcome.Err? ==> r == Err(ownerOutcome.error) && groups == old(groups)
      ensures r.Ok? <==> validation.None? && !atCapacity && ownerOutcome.Ok?
      ensures r.Ok? ==>
        && newId in groups && groups == old(groups)[newId := groups[newId]]
        && r.value == Response(newId, groups[newId], defaultRoles)
        && groups[newId] == NewGroup(caller, post, memberCanister, now).(updated_on := ownerTime)
    {
      if validation.Some? {
        return Err(validation.value);
      }
      var g := NewGroup(caller, post, memberCanister, now);
      if atCapacity {
        // The record is handed to a freshly spawned sibling instead.
        match siblingOutcome
        case Ok(_) => return Err(ApiError(CanisterAtCapacity, ""));
        case Err(e) => return Err(e);
      }
      groups := groups[newId := g];
      match ownerOutcome
      case Err(e) =>
        groups := groups - {newId};
        assert groups == old(groups);
        return Err(e);
      case Ok(_) =>
        // `add_owner` writes the owner again (unchanged) and a later time.
        var stored := groups[newId].(owner := caller, updated_on := ownerTime);
        groups := groups[newId := stored];
        var resp := MapToResponse(newId, stored, defaultRoles);
        return Ok(resp);
    }

    /** `update_group`. */
    method UpdateGroup(id: Principal, u: UpdateGroup, validation: Option<ApiError>, now: nat)
      returns (r: Result<GroupResponse, ApiError>)
      modifies this
      ensures Outcome(r, groups) == UpdateGroupOutcome(old(groups), id, u, validation, now, defaultRoles)
    {
      if validation.Some? {
        return Err(validation.value);
      }
      if id !in groups {
        return Err(MissingEntry);
      }
      var g := groups[id];
      if g.is_deleted {
        return Err(ApiError(BadRequest, "DELETED_GROUP"));
      }
      g := g.(name := u.name, description := u.description, website := u.website,
              location := u.location, privacy := u.privacy, image := u.image,
              banner_image := u.banner_image, tags := u.tags, updated_on := now);
      groups := groups[id := g];
      var resp := MapToResponse(id, g, defaultRoles);
      return Ok(resp);
    }

    /** `delete_group`. */
    method DeleteGroup(caller: Principal, id: Principal, now: nat) returns (r: Result<Group, ApiError>)
      modifies this
      ensures Outcome(r, groups) == DeleteGroupOutcome(old(groups), caller, id, now)
    {
      if id !in groups {
        return Err(MissingEntry);
      }
      var g := groups[id];
      if g.owner != caller {
        return Err(ApiError(Unauthorized, "CANT_DELETE_GROUP"));
      }
      g := g.(is_deleted := true, updated_on := now);
      groups := groups[id := g];
      return Ok(g);
    }

    /** The live groups, read from the table in an unspecified order. */
    method LiveResponses() returns (live: seq<GroupResponse>)
      ensures IsLiveListing(live, groups, defaultRoles)
    {
      live := [];
      var keys := groups.Keys;
      while keys != {}
        invariant keys <= groups.Keys
        invariant DistinctIds(live)
        invariant forall x :: x in live ==> x in LiveSet(groups, defaultRoles)
        invariant Ids(live) == set id | id in groups.Keys - keys && !groups[id].is_deleted
        decreases |keys|
      {
        var id :| id in keys;
        if !groups[id].is_deleted {
          var resp := MapToResponse(id, groups[id], defaultRoles);
          DistinctSnoc(live, resp);
          live := live + [resp];
        }
        keys := keys - {id};
      }
      forall x | x in LiveSet(groups, defaultRoles) ensures x in live {
        var id :| id in groups && !groups[id].is_deleted && x == Response(id, groups[id], defaultRoles);
        assert id in Ids(live);
        var y :| y in live && y.identifier == id;
      }
    }

    /** The filtering stage shared by `get_groups` and `get_chunked_data`. */
    method FilteredLive(filters: seq<GroupFilter>, filterType: FilterType)
      returns (filtered: seq<GroupResponse>, live: seq<GroupResponse>)
      ensures IsLiveListing(live, groups, defaultRoles)
      ensures filterType == And ==> filtered == KeepAll(live, filters)
      ensures filterType == Or ==> IsOrResult(filtered, live, filters)
      ensures forall x :: x in filtered <==> x in LiveSet(groups, defaultRoles) && Passes(x, filters, filterType)
      ensures DistinctIds(filtered)
    {
      live := LiveResponses();
      if filterType == And {
        filtered := AndFilter(live, filters);
      } else {
        filtered := OrFilter(live, filters);
        OrResultExact(filtered, live, filters);
      }
    }

    /** `get_groups`: live groups, filtered, stably sorted, then paged by
        the external pager. */
    method GetGroups<P>(limit: nat, page: nat, filters: seq<GroupFilter>, filterType: FilterType,
                        sort: GroupSort, pager: (seq<GroupResponse>, nat, nat) -> P)
      returns (r: P, ghost filtered: seq<GroupResponse>, ghost ordered: seq<GroupResponse>)
      ensures r == pager(ordered, limit, page)
      ensures DistinctIds(filtered)
      ensures forall x :: x in filtered <==> x in LiveSet(groups, defaultRoles) && Passes(x, filters, filterType)
      // `ordered` is the stable sort of `filtered` (unique by StableSortUnique)
      ensures Sorted(ordered, sort) && multiset(ordered) == multiset(filtered)
      ensures forall k :: WithKey(ordered, sort, k) == WithKey(filtered, sort, k)
      ensures DistinctIds(ordered)
      ensures forall x :: x in ordered <==> x in LiveSet(groups, defaultRoles) && Passes(x, filters, filterType)
    {
      var selected, live := FilteredLive(filters, filterType);
      var sorted := OrderGroups(selected, sort);
      assert forall x :: x in sorted <==> x in multiset(selected);
      filtered := selected;
      ordered := sorted;
      r := pager(sorted, limit, page);
    }

    /** `get_chunked_data`: the filtered live groups (not sorted) are
        serialised and one window of the bytes is returned; `None` is a
        trap. */
    method GetChunkedData(filters: seq<GroupFilter>, filterType: FilterType, chunk: nat, max: nat,
                          serialize: seq<GroupResponse> -> Option<seq<byte>>)
      returns (r: Option<ChunkReply>, ghost filtered: seq<GroupResponse>)
      ensures DistinctIds(filtered)
      ensures forall x :: x in filtered <==> x in LiveSet(groups, defaultRoles) && Passes(x, filters, filterType)
      ensures serialize(filtered).None? ==> r == Some(ChunkReply([], 0, 0))
      ensures serialize(filtered).Some? ==> r == ChunkWindow(serialize(filtered).value, chunk, max)
    {
      var selected, live := FilteredLive(filters, filterType);
      filtered := selected;
      match serialize(selected)
      case None => r := Some(ChunkReply([], 0, 0));
      case Some(bytes) => r := ChunkWindow(bytes, chunk, max);
    }

    /** `get_groups_by_id`. */
    method GetGroupsById(ids: seq<Principal>) returns (r: seq<GroupResponse>)
      ensures r == ById(groups, ids, defaultRoles)
    {
      r := [];
      for i := 0 to |ids|
        invariant r == ById(groups, ids[..i], defaultRoles)
      {
        assert ids[..i + 1][..i] == ids[..i];
        var id := ids[i];
        if id in groups && !groups[id].is_deleted {
          var resp := MapToResponse(id, groups[id], defaultRoles);
          r := r + [resp];
        }
      }
      assert ids[..|ids|] == ids;
    }

    /** `get_group_roles`: the custom roles followed by the default roles,
        or nothing for an unknown group. */
    function GetGroupRoles(id: Principal): (r: seq<GroupRole>)
      reads this
      ensures id !in groups ==> r == []
      ensures id in groups ==>
        && |r| == |groups[id].roles| + |defaultRoles|
        && r[..|groups[id].roles|] == groups[id].roles && r[|groups[id].roles|..] == defaultRoles
    {
      if id in groups then groups[id].roles + defaultRoles else []
    }

    /** `add_role`. */
    method AddRole(caller: Principal, id: Principal, name: string, color: string, index: nat, now: nat)
      returns (r: Result<GroupRole, ApiError>)
      modifies this
      ensures Outcome(r, groups) == AddRoleOutcome(old(groups), caller, id, name, color, index, now, defaultRoles, readOnly)
    {
      if id !in groups {
        return Err(MissingEntry);
      }
      var g := groups[id];
      if g.owner != caller {
        return Err(ApiError(Unauthorized, "UNAUTHORIZED"));
      }
      if HasRoleNamed(g.roles, name) || HasRoleNamed(defaultRoles, name) {
        return Err(ApiError(BadRequest, "EXISTING_ROLE"));
      }
      var role := GroupRole(name, false, readOnly, color, Some(index));
      g := g.(roles := g.roles + [role], updated_on := now);
      groups := groups[id := g];
      return Ok(role);
    }

    /** `remove_role`. The branch that would filter the role out is kept
        as a proved `assert false`: the lookup only returns protected
        roles, and those are refused first. */
    method RemoveRole(caller: Principal, id: Principal, name: string, now: nat)
      returns (r: Result<bool, ApiError>)
      modifies this
      ensures Outcome(r, groups) == RemoveRoleOutcome(old(groups), caller, id, name)
    {
      if id !in groups {
        return Err(MissingEntry);
      }
      var g := groups[id];
      if g.owner != caller {
        return Err(ApiError(Unauthorized, "UNAUTHORIZED"));
      }
      match FindProtectedRole(g.roles, name)
      case None =>
        return Err(ApiError(NotFound, "ROLE_NOT_FOUND"));
      case Some(role) =>
        if role.protected {
          return Err(ApiError(BadRequest, "PROTECTED_ROLE"));
        }
        // The lookup only returns protected roles.
        assert false;
    }

    /** `update_role_permissions`. */
    method UpdateRolePermissions(caller: Principal, id: Principal, name: string,
                                 post: seq<PostPermission>, now: nat)
      returns (r: Result<bool, ApiError>)
      modifies this
      ensures Outcome(r, groups) == UpdateRolePermissionsOutcome(old(groups), caller, id, name, post, now, readOnly)
    {
      if id !in groups {
        return Err(MissingEntry);
      }
      var g := groups[id];
      if g.owner != caller {
        return Err(ApiError(Unauthorized, "UNAUTHORIZED"));
      }
      match FindRole(g.roles, name)
      case None =>
        return Err(ApiError(NotFound, "ROLE_NOT_FOUND"));
      case Some(role) =>
        var ps := ResolvePermissions(post, readOnly);
        assert ps == seq(|post|, i requires 0 <= i < |post| => Resolve(post[i], readOnly));
        var updated := GroupRole(role.name, role.protected, ps, role.color, role.index);
        g := g.(roles := WithoutName(g.roles, role.name) + [updated], updated_on := now);
        groups := groups[id := g];
        return Ok(true);
    }

    /** `update_member_count`; `kindOf` is the identifier decoder's kind. */
    method UpdateMemberCount(id: Principal, canister: Principal, count: nat, kindOf: Principal -> string)
      returns (r: Result<(), bool>)
      modifies this
      ensures (r, groups) == MemberCountOutcome(old(groups), id, canister, count, kindOf)
    {
      if kindOf(id) != "grp" {
        return Err(false);
      }
      if id !in groups {
        return Err(false);
      }
      var g := groups[id];
      g := g.(member_count := g.member_count[canister := count]);
      groups := groups[id := g];
      return Ok(());
    }

    /** `check_permission`: the member's roles come from the member
        canister (`memberRoles`), and `hasPermission` resolves them against
        the group's roles, to which the defaults are appended once more. */
    function CheckPermission(caller: Principal, id: Principal,
                             memberRoles: Result<(Principal, seq<string>), string>,
                             action: PermissionAction,
                             hasPermission: (seq<string>, seq<GroupRole>, PermissionAction) -> bool)
      : (r: Result<Principal, ApiError>)
      reads this
      ensures r.Ok? <==>
        && memberRoles.Ok? && memberRoles.value.0 == caller
        && hasPermission(memberRoles.value.1, GetGroupRoles(id) + defaultRoles, action)
      ensures r.Ok? ==> r.value == caller
      ensures r.Err? ==> r.error.kind == Unauthorized
      ensures memberRoles.Ok? && memberRoles.value.0 != caller ==> r == Err(ApiError(Unauthorized, "PRINCIPAL_MISMATCH"))
    {
      match memberRoles
      case Err(_) => Err(ApiError(Unauthorized, "NO_PERMISSION"))
      case Ok((principal, roles)) =>
        if caller != principal then Err(ApiError(Unauthorized, "PRINCIPAL_MISMATCH"))
        else if !hasPermission(roles, GetGroupRoles(id) + defaultRoles, action) then
          Err(ApiError(Unauthorized, "NO_PERMISSION"))
        else Ok(caller)
    }
  }

  /** The record `add_group` builds: the caller owns and created it, one
      member is counted at the member canister, and it has no custom roles. */
  function NewGroup(caller: Principal, post: PostGroup, memberCanister: Principal, now: nat): (g: Group)
    ensures g.owner == caller && g.created_by == caller && !g.is_deleted && g.roles == []
    ensures g.member_count == map[memberCanister := 1] && MemberTotal(g.member_count) == 1
    ensures g.created_on == now && g.updated_on == now
  {
    MemberTotalSingle(memberCanister, 1);
    Group(
      name := post.name, description := post.description, website := post.website,
      location := post.location, privacy := post.privacy,
      owner := caller, created_by := caller,
      matrix_space_id := post.matrix_space_id, image := post.image,
      banner_image := post.banner_image, tags := post.tags,
      privacy_gated_type_amount := None,
      roles := [], is_deleted := false,
      member_count := map[memberCanister := 1], wallets := map[],
      updated_on := now, created_on := now)
  }
}
