/** The records and sum types shared by the group canisters
    (src/shared/src/group_model.rs), together with the parts of the
    external `ic_scalable_misc` types that the core reads. */
module GroupModel {
  import opened Wrappers

  newtype byte = x: int | 0 <= x < 256

  /** A principal is an opaque byte blob. */
  type Principal = seq<byte>

  /** `Principal::anonymous()` is the one-byte blob 0x04. */
  const Anonymous: Principal := [4]

  /** Domain values that the core only copies from one record to another. */
  datatype Asset = NoAsset | Url(url: string) | CanisterStorage(reference: string)
  datatype Location = NoLocation | Digital(address: string) | Physical(address: string)
                    | MultiLocation(physical: string, digital: string)
  datatype Privacy = Public | Private | InviteOnly | Gated(rules: string)

  /** The four actions a permission may grant. */
  datatype PermissionActions = PermissionActions(edit: bool, read: bool, delete: bool, write: bool)
  datatype PermissionAction = ReadAction | WriteAction | EditAction | DeleteAction

  datatype Permission = Permission(name: string, protected: bool, actions: PermissionActions)
  datatype PostPermission = PostPermission(name: string, actions: PermissionActions)

  datatype GroupRole = GroupRole(
    name: string,
    protected: bool,
    permissions: seq<Permission>,
    color: string,
    index: Option<nat>)

  /** The stored record. `member_count` holds one count per member canister. */
  datatype Group = Group(
    name: string,
    description: string,
    website: string,
    location: Location,
    privacy: Privacy,
    owner: Principal,
    created_by: Principal,
    matrix_space_id: string,
    image: Asset,
    banner_image: Asset,
    tags: seq<nat>,
    privacy_gated_type_amount: Option<nat>,
    roles: seq<GroupRole>,
    is_deleted: bool,
    member_count: map<Principal, nat>,
    wallets: map<Principal, string>,
    updated_on: nat,
    created_on: nat)

  datatype PostGroup = PostGroup(
    name: string,
    description: string,
    website: string,
    matrix_space_id: string,
    location: Location,
    privacy: Privacy,
    privacy_gated_type_amount: Option<nat>,
    image: Asset,
    banner_image: Asset,
    tags: seq<nat>)

  datatype UpdateGroup = UpdateGroup(
    name: string,
    description: string,
    website: string,
    location: Location,
    privacy: Privacy,
    image: Asset,
    banner_image: Asset,
    tags: seq<nat>)

  /** What the canister hands out: the record plus its identifier, with the
      default roles appended and the per-canister counts summed. */
  datatype GroupResponse = GroupResponse(
    identifier: Principal,
    name: string,
    description: string,
    website: string,
    location: Location,
    privacy: Privacy,
    created_by: Principal,
    owner: Principal,
    matrix_space_id: string,
    image: Asset,
    banner_image: Asset,
    tags: seq<nat>,
    roles: seq<GroupRole>,
    member_count: nat,
    is_deleted: bool,
    updated_on: nat,
    created_on: nat)

  datatype SortDirection = Asc | Desc

  datatype GroupSort =
    | SortByName(nameDirection: SortDirection)
    | SortByMemberCount(countDirection: SortDirection)
    | SortByCreatedOn(createdDirection: SortDirection)
    | SortByUpdatedOn(updatedDirection: SortDirection)

  /** `end_date == 0` means the range has no upper bound. */
  datatype DateRange = DateRange(start_date: nat, end_date: nat)

  datatype GroupFilter =
    | NameFilter(text: string)
    | OwnerFilter(owner: Principal)
    | MemberCountFilter(low: nat, high: nat)
    | IdentifiersFilter(ids: seq<Principal>)
    | TagFilter(tag: nat)
    | UpdatedOnFilter(updated: DateRange)
    | CreatedOnFilter(created: DateRange)

  datatype FilterType = And | Or

  /** The error kinds of `ApiError`; the diagnostic message, location and
      input snapshot are not modelled, only the kind and the tag. */
  datatype ApiErrorType = BadRequest | NotFound | Unauthorized | CanisterAtCapacity | Unexpected
  datatype ApiError = ApiError(kind: ApiErrorType, tag: string)

  /** `Default for Group`: everything empty, not deleted, owned by the
      anonymous principal. */
  function DefaultGroup(): (g: Group)
    ensures !g.is_deleted
    ensures g.tags == [] && g.roles == [] && g.member_count == map[] && g.wallets == map[]
    ensures g.owner == Anonymous && g.created_by == Anonymous
    ensures g.name == "" && g.updated_on == 0 && g.created_on == 0
  {
    Group(
      name := "", description := "", website := "",
      location := NoLocation, privacy := Public,
      owner := Anonymous, created_by := Anonymous,
      matrix_space_id := "", image := NoAsset, banner_image := NoAsset,
      tags := [], privacy_gated_type_amount := None,
      roles := [], is_deleted := false,
      member_count := map[], wallets := map[],
      updated_on := 0, created_on := 0)
  }
}
