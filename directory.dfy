/** The scalable (directory) canister's state and its operations
    (src/canister/src/logic/store.rs, src/canister/src/logic/default_methods.rs):
    the table of child canisters, the whitelist, the staged child image and
    the life cycle of a child: spawn, install, close, upgrade, reinstall.

    Creating a canister, installing code and the forwarding call are
    outcome arguments; `time()` is `now`. */
module Directory {
  import opened Wrappers
  import opened GroupModel
  import opened Whitelist
  import Aggregator

  /** `WasmVersion`. */
  datatype WasmVersion = NoVersion | Version(number: nat) | CustomVersion

  /** `CanisterType`. */
  datatype CanisterType = EmptyCanister | Foundation | CustomCanister | ScalableChild | Scalable

  /** `ScalableCanisterDetails`: `entry_range` is the first and, once the
      child is closed, the last entry it holds. */
  datatype CanisterDetails = CanisterDetails(
    principal: Principal,
    wasm_version: WasmVersion,
    canister_type: CanisterType,
    is_available: bool,
    entry_range: (nat, Option<nat>))

  /** The part of `WasmDetails` the core reads: the staged image and its
      version. */
  datatype WasmDetails = WasmDetails(bytes: seq<byte>, wasm_version: WasmVersion)

  /** The record of a freshly created, still empty canister. */
  function SpawnedRecord(p: Principal): (d: CanisterDetails)
    ensures d.principal == p && d.wasm_version == NoVersion && d.canister_type == EmptyCanister
    ensures d.is_available && d.entry_range == (0, None)
  {
    CanisterDetails(p, NoVersion, EmptyCanister, true, (0, None))
  }

  /** The record of a canister the child image was just installed on. */
  function InstalledRecord(p: Principal, version: WasmVersion): (d: CanisterDetails)
    ensures d.principal == p && d.wasm_version == version && d.canister_type == ScalableChild
    ensures d.is_available && d.entry_range == (0, None)
  {
    CanisterDetails(p, version, ScalableChild, true, (0, None))
  }

  /** A full child's record after the handoff: no longer available, its
      range closed at the last entry it stored; identity kept. */
  function ClosedRecord(d: CanisterDetails, lastEntryId: nat): (c: CanisterDetails)
    ensures c.principal == d.principal && c.canister_type == d.canister_type && c.wasm_version == d.wasm_version
    ensures !c.is_available && c.entry_range == (0, Some(lastEntryId))
  {
    CanisterDetails(d.principal, d.wasm_version, d.canister_type, false, (0, Some(lastEntryId)))
  }

  /** Whether some record other than the caller's is available. */
  predicate HasAvailable(canisters: map<Principal, CanisterDetails>, caller: Principal) {
    exists k :: k in canisters && canisters[k].principal != caller && canisters[k].is_available
  }

  /** Every record is stored under its own principal. */
  predicate KeyedByPrincipal(canisters: map<Principal, CanisterDetails>) {
    forall k :: k in canisters ==> canisters[k].principal == k
  }

  /** The principals of the records under `keys`, in that order. */
  function PrincipalsOf(canisters: map<Principal, CanisterDetails>, keys: seq<Principal>): (r: seq<Principal>)
    requires forall i :: 0 <= i < |keys| ==> keys[i] in canisters
    ensures |r| == |keys| && forall i :: 0 <= i < |keys| ==> r[i] == canisters[keys[i]].principal
  {
    seq(|keys|, i requires 0 <= i < |keys| => canisters[keys[i]].principal)
  }

  /** The error every whitelist check returns. */
  const NotWhitelisted: ApiError := ApiError(Unauthorized, "NOT_WHITELISTED")

  class ScalableData {
    var name: string
    var canisters: map<Principal, CanisterDetails>
    var owner: Principal
    var parent: Principal
    /** `child_wasm_data`: the image staged for upgrades and handoffs. */
    var childWasmData: WasmDetails
    var whitelist: seq<WhitelistEntry>
    var updatedAt: nat
    var createdAt: nat
    /** `CHILD_WASM`, the image embedded at build time. */
    const childWasm: seq<byte>

    /** `ScalableData::default()`; the embedded and staged images are
        arguments. */
    constructor(childWasm: seq<byte>, staged: WasmDetails, now: nat)
      ensures name == "" && canisters == map[] && whitelist == []
      ensures owner == Anonymous && parent == Anonymous
      ensures childWasmData == staged && this.childWasm == childWasm
      ensures updatedAt == now && createdAt == now
    {
      name := "";
      canisters := map[];
      owner := Anonymous;
      parent := Anonymous;
      childWasmData := staged;
      whitelist := [];
      updatedAt := now;
      createdAt := now;
      this.childWasm := childWasm;
    }

    /** `init`: name, owner and parent from the arguments, and the whitelist
        replaced by the single Owner entry. */
    method Init(name: string, owner: Principal, parent: Principal, now: nat)
      modifies this
      ensures this.name == name && this.owner == owner && this.parent == parent
      ensures whitelist == [WhitelistEntry("Owner", owner, Owner, now)]
      ensures OwnerInvariant(whitelist, owner) && HasWhitelistRights(owner, Owner)
      ensures canisters == old(canisters) && childWasmData == old(childWasmData)
      ensures updatedAt == old(updatedAt) && createdAt == old(createdAt)
    {
      this.name := name;
      this.owner := owner;
      this.parent := parent;
      whitelist := InitialWhitelist(owner, now);
    }

    /** `has_whitelist_rights`. */
    function HasWhitelistRights(p: Principal, rights: Rights): (b: bool)
      reads this
      ensures !Listed(whitelist, p) ==> !b
      ensures UniquePrincipals(whitelist) ==>
        (b <==> exists e :: e in whitelist && e.principal == p && Covers(e.rights, rights))
    {
      HasRights(whitelist, p, rights)
    }

    /** `add_to_whitelist`. */
    method AddToWhitelist(caller: Principal, entryLabel: string, p: Principal, rights: Rights, now: nat)
      returns (r: Result<bool, ApiError>)
      modifies this
      ensures (r, whitelist) == AddOutcome(old(whitelist), caller, entryLabel, p, rights, now)
      ensures canisters == old(canisters) && name == old(name) && owner == old(owner)
    {
      if rights == Owner {
        return Err(ApiError(BadRequest, "CANT_SET_RIGHTS"));
      }
      if !HasWhitelistRights(caller, Owner) {
        return Err(NotWhitelisted);
      }
      if Listed(whitelist, p) {
        return Err(ApiError(BadRequest, "ALREADY_WHITELISTED"));
      }
      whitelist := whitelist + [WhitelistEntry(entryLabel, p, rights, now)];
      return Ok(true);
    }

    /** `remove_from_whitelist`. */
    method RemoveFromWhitelist(caller: Principal, p: Principal) returns (r: Result<bool, ApiError>)
      modifies this
      ensures (r, whitelist) == RemoveOutcome(old(whitelist), caller, p)
      ensures canisters == old(canisters) && name == old(name) && owner == old(owner)
    {
      match FindEntry(whitelist, p)
      case None =>
        return Err(ApiError(NotFound, "WHITELIST_ENTRY_NOT_FOUND"));
      case Some(e) =>
        if e.rights == Owner {
          return Err(ApiError(BadRequest, "CANT_SET_RIGHTS"));
        }
        if !HasWhitelistRights(caller, Owner) {
          return Err(NotWhitelisted);
        }
        whitelist := WithoutPrincipal(whitelist, p);
        return Ok(true);
    }

    /** `change_name`: ReadWrite rights and at most one registered child. */
    method ChangeName(caller: Principal, newName: string) returns (b: bool)
      modifies this
      ensures b <==> old(HasWhitelistRights(caller, ReadWrite)) && |old(canisters)| <= 1
      ensures name == (if b then newName else old(name))
      ensures canisters == old(canisters) && whitelist == old(whitelist)
    {
      if !HasWhitelistRights(caller, ReadWrite) {
        return false;
      }
      if |canisters| > 1 {
        return false;
      }
      name := newName;
      return true;
    }

    /** `get_available_canister`: some available record other than the
        caller's, taken in the table's unspecified order. */
    method GetAvailableCanister(caller: Principal) returns (r: Result<CanisterDetails, string>)
      ensures r.Ok? ==> exists k :: k in canisters && canisters[k] == r.value
      ensures r.Ok? ==> r.value.principal != caller && r.value.is_available
      ensures r.Err? <==> !HasAvailable(canisters, caller)
      ensures r.Err? ==> r.error == "No available canister found"
    {
      var keys := canisters.Keys;
      while keys != {}
        invariant keys <= canisters.Keys
        invariant forall k :: k in canisters.Keys - keys ==>
          canisters[k].principal == caller || !canisters[k].is_available
        decreases |keys|
      {
        var k :| k in keys;
        var c := canisters[k];
        if c.principal != caller && c.is_available {
          return Ok(c);
        }
        keys := keys - {k};
      }
      return Err("No available canister found");
    }

    /** `spawn_empty_canister`; `created` is the new canister's principal,
        or `None` when creation fails. */
    method SpawnEmptyCanister(created: Option<Principal>) returns (r: Result<Principal, ApiError>)
      modifies this
      ensures created.None? ==> r == Err(ApiError(BadRequest, "CANISTER_NOT_CREATED")) && canisters == old(canisters)
      ensures created.Some? ==>
        && r == Ok(created.value)
        && canisters == old(canisters)[created.value := SpawnedRecord(created.value)]
      ensures whitelist == old(whitelist) && name == old(name) && childWasmData == old(childWasmData)
      ensures KeyedByPrincipal(old(canisters)) ==> KeyedByPrincipal(canisters)
    {
      match created
      case None =>
        return Err(ApiError(BadRequest, "CANISTER_NOT_CREATED"));
      case Some(p) =>
        canisters := canisters[p := SpawnedRecord(p)];
        return Ok(p);
    }

    /** `_install_child_canister`; `installed` is the outcome of installing
        the embedded image. */
    method InstallChildCanister(p: Principal, installed: bool) returns (r: Result<Principal, ApiError>)
      modifies this
      ensures childWasm == [] ==> r == Err(ApiError(BadRequest, "NO_WASM_SPECIFIED"))
      ensures childWasm != [] && !installed ==> r == Err(ApiError(NotFound, "CANISTER_INSTALL_FAILED"))
      ensures r.Ok? <==> childWasm != [] && installed
      ensures r.Err? ==> canisters == old(canisters)
      ensures r.Ok? ==>
        && r.value == p
        && canisters == old(canisters)[p := InstalledRecord(p, childWasmData.wasm_version)]
      ensures whitelist == old(whitelist) && name == old(name) && childWasmData == old(childWasmData)
      ensures KeyedByPrincipal(old(canisters)) ==> KeyedByPrincipal(canisters)
    {
      if childWasm == [] {
        return Err(ApiError(BadRequest, "NO_WASM_SPECIFIED"));
      }
      if !installed {
        return Err(ApiError(NotFound, "CANISTER_INSTALL_FAILED"));
      }
      canisters := canisters[p := InstalledRecord(p, childWasmData.wasm_version)];
      return Ok(p);
    }

    /** `initialize_first_child_canister`: the caller must be a registered
        canister or hold ReadWrite rights, and no canister may be
        registered yet; a new canister is then spawned and installed. */
    method InitializeFirstChildCanister(caller: Principal, created: Option<Principal>, installed: bool)
      returns (r: Result<Principal, ApiError>)
      modifies this
      ensures childWasm == [] ==> r == Err(ApiError(BadRequest, "NO_WASM_SPECIFIED"))
      ensures childWasm != [] && !(caller in old(canisters) || old(HasWhitelistRights(caller, ReadWrite))) ==>
        r == Err(ApiError(BadRequest, "UNKNOWN_CANISTER"))
      ensures (childWasm != [] && (caller in old(canisters) || old(HasWhitelistRights(caller, ReadWrite)))
               && old(canisters) != map[]) ==> r == Err(ApiError(BadRequest, "ALREADY_INITIALIZED"))
      ensures r.Ok? <==>
        && childWasm != [] && old(HasWhitelistRights(caller, ReadWrite))
        && old(canisters) == map[] && created.Some? && installed
      ensures r.Ok? ==>
        && r.value == created.value
        && canisters == map[created.value := InstalledRecord(created.value, childWasmData.wasm_version)]
      ensures (created.None? || old(canisters) != map[] || childWasm == []
               || !old(HasWhitelistRights(caller, ReadWrite))) ==> canisters == old(canisters)
      ensures (childWasm != [] && old(HasWhitelistRights(caller, ReadWrite)) && old(canisters) == map[]
               && created.None?) ==> r == Err(ApiError(BadRequest, "CANISTER_NOT_CREATED"))
      // A failed install leaves the spawned, still empty canister registered.
      ensures (childWasm != [] && old(HasWhitelistRights(caller, ReadWrite)) && old(canisters) == map[]
               && created.Some? && !installed) ==>
        && r == Err(ApiError(NotFound, "CANISTER_INSTALL_FAILED"))
        && canisters == map[created.value := SpawnedRecord(created.value)]
      ensures whitelist == old(whitelist) && childWasmData == old(childWasmData)
    {
      if childWasm == [] {
        return Err(ApiError(BadRequest, "NO_WASM_SPECIFIED"));
      }
      if !(caller in canisters || HasWhitelistRights(caller, ReadWrite)) {
        return Err(ApiError(BadRequest, "UNKNOWN_CANISTER"));
      }
      if |canisters| != 0 {
        return Err(ApiError(BadRequest, "ALREADY_INITIALIZED"));
      }
      var spawned := SpawnEmptyCanister(created);
      match spawned
      case Err(e) =>
        return Err(e);
      case Ok(p) =>
        r := InstallChildCanister(p, installed);
    }

    /** `close_child_canister_and_spawn_sibling`: a full child asks for a
        sibling. A new canister is spawned and installed, the caller's
        record is closed at `lastEntryId`, and only then is the entry
        forwarded (`forwarded` is that call's outcome). */
    method CloseChildCanisterAndSpawnSibling(caller: Principal, lastEntryId: nat,
                                             created: Option<Principal>, installed: bool, forwarded: bool)
      returns (r: Result<Principal, ApiError>)
      modifies this
      ensures childWasmData.bytes == [] ==> r == Err(ApiError(BadRequest, "NO_WASM_SPECIFIED")) && canisters == old(canisters)
      ensures childWasmData.bytes != [] && caller !in old(canisters) ==>
        r == Err(ApiError(BadRequest, "UNKNOWN_CANISTER")) && canisters == old(canisters)
      ensures childWasmData.bytes != [] && caller in old(canisters) && created.None? ==>
        r == Err(ApiError(BadRequest, "CANISTER_NOT_CREATED")) && canisters == old(canisters)
      ensures childWasmData.bytes != [] && caller in old(canisters) && created.Some? && childWasm != [] && installed ==>
        && canisters == old(canisters)[created.value := InstalledRecord(created.value, childWasmData.wasm_version)]
                                      [old(canisters)[caller].principal := ClosedRecord(old(canisters)[caller], lastEntryId)]
        && r == (if forwarded then Ok(created.value) else Err(ApiError(BadRequest, "FAILED_TO_STORE_DATA")))
      // A failed install leaves the spawned, still empty sibling registered
      // and the caller's record open.
      ensures (childWasmData.bytes != [] && caller in old(canisters) && created.Some?
               && (childWasm == [] || !installed)) ==>
        && canisters == old(canisters)[created.value := SpawnedRecord(created.value)]
        && r == Err(if childWasm == [] then ApiError(BadRequest, "NO_WASM_SPECIFIED")
                    else ApiError(NotFound, "CANISTER_INSTALL_FAILED"))
      ensures r.Ok? <==>
        && childWasmData.bytes != [] && caller in old(canisters) && created.Some?
        && childWasm != [] && installed && forwarded
      ensures KeyedByPrincipal(old(canisters)) ==> KeyedByPrincipal(canisters)
      ensures whitelist == old(whitelist) && childWasmData == old(childWasmData)
    {
      if childWasmData.bytes == [] {
        return Err(ApiError(BadRequest, "NO_WASM_SPECIFIED"));
      }
      if caller !in canisters {
        return Err(ApiError(BadRequest, "UNKNOWN_CANISTER"));
      }
      var callerRecord := canisters[caller];
      var spawned := SpawnEmptyCanister(created);
      if spawned.Err? {
        return Err(spawned.error);
      }
      var sibling := InstallChildCanister(spawned.value, installed);
      if sibling.Err? {
        return Err(sibling.error);
      }
      canisters := canisters[callerRecord.principal := ClosedRecord(callerRecord, lastEntryId)];
      if !forwarded {
        return Err(ApiError(BadRequest, "FAILED_TO_STORE_DATA"));
      }
      return Ok(sibling.value);
    }

    /** `upgrade_child_canister`: ReadWrite rights, a registered child whose
        version differs from the staged one, and a successful upgrade; only
        the version of its record changes. */
    method UpgradeChildCanister(caller: Principal, p: Principal, upgraded: bool)
      returns (r: Result<CanisterDetails, ApiError>)
      modifies this
      ensures !old(HasWhitelistRights(caller, ReadWrite)) ==> r == Err(NotWhitelisted)
      ensures old(HasWhitelistRights(caller, ReadWrite)) && p !in old(canisters) ==> r == Err(ApiError(NotFound, "NO_CHILDREN"))
      ensures (old(HasWhitelistRights(caller, ReadWrite)) && p in old(canisters)
               && old(canisters)[p].wasm_version == childWasmData.wasm_version) ==>
        r == Err(ApiError(BadRequest, "CANISTER_UP_TO_DATE"))
      ensures r.Ok? <==>
        && old(HasWhitelistRights(caller, ReadWrite)) && p in old(canisters)
        && old(canisters)[p].wasm_version != childWasmData.wasm_version && upgraded
      ensures KeyedByPrincipal(old(canisters)) ==> KeyedByPrincipal(canisters)
      ensures r.Err? ==> canisters == old(canisters)
      ensures r.Ok? ==>
        && r.value == old(canisters)[p].(wasm_version := childWasmData.wasm_version)
        && canisters == old(canisters)[p := r.value]
      ensures whitelist == old(whitelist) && childWasmData == old(childWasmData)
    {
      if !HasWhitelistRights(caller, ReadWrite) {
        return Err(NotWhitelisted);
      }
      if p !in canisters {
        return Err(ApiError(NotFound, "NO_CHILDREN"));
      }
      var child := canisters[p];
      if childWasmData.wasm_version == child.wasm_version {
        return Err(ApiError(BadRequest, "CANISTER_UP_TO_DATE"));
      }
      if !upgraded {
        return Err(ApiError(BadRequest, "UPGRADE_FAILED"));
      }
      var updated := CanisterDetails(child.principal, childWasmData.wasm_version, child.canister_type,
                                     child.is_available, child.entry_range);
      canisters := canisters[p := updated];
      return Ok(updated);
    }

    /** `reinstall_child_canister`: ReadWrite rights, then an install in
        reinstall mode, which rewrites the record as freshly installed. */
    method ReinstallChildCanister(caller: Principal, p: Principal, installed: bool)
      returns (r: Result<Principal, ApiError>)
      modifies this
      ensures !old(HasWhitelistRights(caller, ReadWrite)) ==> r == Err(NotWhitelisted) && canisters == old(canisters)
      ensures r.Ok? <==> old(HasWhitelistRights(caller, ReadWrite)) && childWasm != [] && installed
      ensures r.Ok? ==> canisters == old(canisters)[p := InstalledRecord(p, childWasmData.wasm_version)]
      ensures r.Err? ==> canisters == old(canisters)
      ensures whitelist == old(whitelist) && childWasmData == old(childWasmData)
      ensures KeyedByPrincipal(old(canisters)) ==> KeyedByPrincipal(canisters)
    {
      if !HasWhitelistRights(caller, ReadWrite) {
        return Err(NotWhitelisted);
      }
      r := InstallChildCanister(p, installed);
    }

    /** `get_child_canister_data`: every registered child is asked in the
        table's unspecified order (`visited`), and their groups are
        concatenated in that order. */
    method GetChildCanisterData(call: Aggregator.ChunkCall, decode: Aggregator.Decoder)
      returns (groups: seq<GroupResponse>, ghost visited: seq<Principal>)
      ensures |visited| == |canisters|
      ensures forall k :: k in canisters <==> k in visited
      ensures forall i, j :: 0 <= i < j < |visited| ==> visited[i] != visited[j]
      ensures groups == Aggregator.Collected(call, decode, PrincipalsOf(canisters, visited))
    {
      groups := [];
      visited := [];
      var keys := canisters.Keys;
      ghost var principals: seq<Principal> := [];
      while keys != {}
        invariant keys <= canisters.Keys
        invariant forall k :: k in canisters <==> k in visited || k in keys
        invariant forall k :: k in visited ==> k !in keys
        invariant forall i, j :: 0 <= i < j < |visited| ==> visited[i] != visited[j]
        invariant |visited| + |keys| == |canisters|
        invariant |principals| == |visited|
        invariant forall i :: 0 <= i < |visited| ==> visited[i] in canisters && principals[i] == canisters[visited[i]].principal
        invariant groups == Aggregator.Collected(call, decode, principals)
        decreases |keys|
      {
        var k :| k in keys;
        var more := Aggregator.GetFilteredChildData(call, decode, canisters[k].principal);
        assert (principals + [canisters[k].principal])[..|principals|] == principals;
        groups := groups + more;
        principals := principals + [canisters[k].principal];
        visited := visited + [k];
        keys := keys - {k};
      }
      assert |canisters.Keys| == |canisters|;
      assert principals == PrincipalsOf(canisters, visited);
    }
  }
}
