/** The administrative whitelist of the scalable (directory) canister
    (src/canister/src/logic/store.rs): who may act on the directory, and how
    adding and removing entries keeps one Owner entry and unique
    principals. */
module Whitelist {
  import opened Wrappers
  import opened GroupModel

  /** `WhitelistRights`, strongest first. The derived order of the Rust
      enum makes `Owner` the least value, so `held <= required` reads
      "held is at least as strong as required". */
  datatype Rights = Owner | ReadWrite | Read

  function Rank(r: Rights): nat {
    match r
    case Owner => 0
    case ReadWrite => 1
    case Read => 2
  }

  /** `held <= required` on the derived enum order. */
  predicate Covers(held: Rights, required: Rights) {
    Rank(held) <= Rank(required)
  }

  datatype WhitelistEntry = WhitelistEntry(entryLabel: string, principal: Principal, rights: Rights, created_on: nat)

  predicate Listed(w: seq<WhitelistEntry>, p: Principal) {
    exists e :: e in w && e.principal == p
  }

  /** No principal has two entries. */
  predicate UniquePrincipals(w: seq<WhitelistEntry>) {
    forall i, j :: 0 <= i < j < |w| ==> w[i].principal != w[j].principal
  }

  /** The shape `init` establishes and the whitelist operations keep: unique
      principals, and `owner` holds the one and only Owner entry. */
  predicate OwnerInvariant(w: seq<WhitelistEntry>, owner: Principal) {
    && UniquePrincipals(w)
    && (forall e :: e in w && e.rights == Owner ==> e.principal == owner)
    && (exists e :: e in w && e.principal == owner && e.rights == Owner)
  }

  /** `.iter().find(|w| w.principal == p)`. */
  function FindEntry(w: seq<WhitelistEntry>, p: Principal): (r: Option<WhitelistEntry>)
    ensures r.Some? ==> r.value in w && r.value.principal == p
    ensures r.None? <==> !Listed(w, p)
    ensures r.Some? && UniquePrincipals(w) ==> forall e :: e in w && e.principal == p ==> e == r.value
  {
    if w == [] then None
    else if w[0].principal == p then
      assert UniquePrincipals(w) ==> forall e :: e in w[1..] ==> e.principal != p by {
        if UniquePrincipals(w) {
          forall e | e in w[1..] ensures e.principal != p {
            var j :| 0 <= j < |w[1..]| && w[1..][j] == e;
            assert w[j + 1] == e;
          }
        }
      }
      Some(w[0])
    else
      assert forall e :: e in w <==> e == w[0] || e in w[1..];
      FindEntry(w[1..], p)
  }

  /** `has_whitelist_rights`: the first entry of the principal decides; a
      principal without an entry has no rights. */
  function HasRights(w: seq<WhitelistEntry>, p: Principal, required: Rights): (b: bool)
    ensures !Listed(w, p) ==> !b
    ensures b ==> exists e :: e in w && e.principal == p && Covers(e.rights, required)
    ensures UniquePrincipals(w) ==> (b <==> exists e :: e in w && e.principal == p && Covers(e.rights, required))
  {
    match FindEntry(w, p)
    case None => false
    case Some(e) => Covers(e.rights, required)
  }

  /** Rights are monotone: holding a right implies every weaker one. */
  lemma HasRightsMonotone(w: seq<WhitelistEntry>, p: Principal, stronger: Rights, weaker: Rights)
    requires Covers(stronger, weaker) && HasRights(w, p, stronger)
    ensures HasRights(w, p, weaker)
  {
  }

  /** `.filter(|w| w.principal != p).collect()`. */
  function WithoutPrincipal(w: seq<WhitelistEntry>, p: Principal): (r: seq<WhitelistEntry>)
    ensures forall e :: e in r <==> e in w && e.principal != p
    ensures |r| <= |w|
    ensures UniquePrincipals(w) ==> UniquePrincipals(r)
  {
    if w == [] then []
    else
      var rest := WithoutPrincipal(w[1..], p);
      assert forall e :: e in w <==> e == w[0] || e in w[1..];
      if w[0].principal != p then
        assert UniquePrincipals(w) ==> UniquePrincipals([w[0]] + rest) by {
          if UniquePrincipals(w) {
            assert UniquePrincipals(w[1..]);
            forall e | e in rest ensures e.principal != w[0].principal {
              var j :| 0 <= j < |w[1..]| && w[1..][j] == e;
              assert w[j + 1] == e;
            }
            forall i, j | 0 <= i < j < |[w[0]] + rest|
              ensures ([w[0]] + rest)[i].principal != ([w[0]] + rest)[j].principal
            {
              if i == 0 {
                assert ([w[0]] + rest)[j] in rest;
              } else {
                assert ([w[0]] + rest)[i] == rest[i - 1] && ([w[0]] + rest)[j] == rest[j - 1];
              }
            }
          }
        }
        [w[0]] + rest
      else
        assert UniquePrincipals(w) ==> UniquePrincipals(w[1..]);
        rest
  }

  /** `add_to_whitelist`, as a reply and the whitelist afterwards: Owner
      rights are refused first, then a caller without Owner rights, then a
      principal that is already listed; otherwise one entry is appended. */
  function AddOutcome(w: seq<WhitelistEntry>, caller: Principal, entryLabel: string, p: Principal,
                      rights: Rights, now: nat)
    : (o: (Result<bool, ApiError>, seq<WhitelistEntry>))
    ensures rights == Owner ==> o == (Err(ApiError(BadRequest, "CANT_SET_RIGHTS")), w)
    ensures rights != Owner && !HasRights(w, caller, Owner) ==> o == (Err(ApiError(Unauthorized, "NOT_WHITELISTED")), w)
    ensures rights != Owner && HasRights(w, caller, Owner) && Listed(w, p) ==>
      o == (Err(ApiError(BadRequest, "ALREADY_WHITELISTED")), w)
    ensures o.0.Ok? <==> rights != Owner && HasRights(w, caller, Owner) && !Listed(w, p)
    ensures o.0.Ok? ==> o.0.value && o.1 == w + [WhitelistEntry(entryLabel, p, rights, now)]
    ensures o.0.Err? ==> o.1 == w
  {
    if rights == Owner then (Err(ApiError(BadRequest, "CANT_SET_RIGHTS")), w)
    else if !HasRights(w, caller, Owner) then (Err(ApiError(Unauthorized, "NOT_WHITELISTED")), w)
    else if Listed(w, p) then (Err(ApiError(BadRequest, "ALREADY_WHITELISTED")), w)
    else (Ok(true), w + [WhitelistEntry(entryLabel, p, rights, now)])
  }

  /** `remove_from_whitelist`: a principal without an entry is not found,
      an Owner entry is refused, then a caller without Owner rights;
      otherwise every entry of the principal is dropped. */
  function RemoveOutcome(w: seq<WhitelistEntry>, caller: Principal, p: Principal)
    : (o: (Result<bool, ApiError>, seq<WhitelistEntry>))
    ensures !Listed(w, p) ==> o == (Err(ApiError(NotFound, "WHITELIST_ENTRY_NOT_FOUND")), w)
    ensures Listed(w, p) && FindEntry(w, p).value.rights == Owner ==> o == (Err(ApiError(BadRequest, "CANT_SET_RIGHTS")), w)
    ensures Listed(w, p) && FindEntry(w, p).value.rights != Owner && !HasRights(w, caller, Owner) ==>
      o == (Err(ApiError(Unauthorized, "NOT_WHITELISTED")), w)
    ensures o.0.Ok? <==> Listed(w, p) && FindEntry(w, p).value.rights != Owner && HasRights(w, caller, Owner)
    ensures o.0.Ok? ==> o.0.value && o.1 == WithoutPrincipal(w, p) && !Listed(o.1, p)
    ensures o.0.Err? ==> o.1 == w
  {
    match FindEntry(w, p)
    case None => (Err(ApiError(NotFound, "WHITELIST_ENTRY_NOT_FOUND")), w)
    case Some(e) =>
      if e.rights == Owner then (Err(ApiError(BadRequest, "CANT_SET_RIGHTS")), w)
      else if !HasRights(w, caller, Owner) then (Err(ApiError(Unauthorized, "NOT_WHITELISTED")), w)
      else (Ok(true), WithoutPrincipal(w, p))
  }

  /** The whitelist `init` installs. */
  function InitialWhitelist(owner: Principal, now: nat): (w: seq<WhitelistEntry>)
    ensures |w| == 1 && w[0].rights == Owner && w[0].principal == owner && w[0].entryLabel == "Owner"
    ensures OwnerInvariant(w, owner)
  {
    [WhitelistEntry("Owner", owner, Owner, now)]
  }

  /** Adding never creates a second Owner entry nor a duplicate principal. */
  lemma {:induction false} AddKeepsOwnerInvariant(w: seq<WhitelistEntry>, owner: Principal, caller: Principal,
                                                  entryLabel: string, p: Principal, rights: Rights, now: nat)
    requires OwnerInvariant(w, owner)
    ensures OwnerInvariant(AddOutcome(w, caller, entryLabel, p, rights, now).1, owner)
  {
    var o := AddOutcome(w, caller, entryLabel, p, rights, now);
    if o.0.Ok? {
      var e := WhitelistEntry(entryLabel, p, rights, now);
      assert o.1 == w + [e];
      forall i, j | 0 <= i < j < |o.1| ensures o.1[i].principal != o.1[j].principal {
        if j == |w| {
          assert o.1[i] in w;
        } else {
          assert o.1[i] == w[i] && o.1[j] == w[j];
        }
      }
      assert forall x :: x in o.1 <==> x in w || x == e;
    }
  }

  /** Removing never drops the Owner entry. */
  lemma {:induction false} RemoveKeepsOwnerInvariant(w: seq<WhitelistEntry>, owner: Principal,
                                                     caller: Principal, p: Principal)
    requires OwnerInvariant(w, owner)
    ensures OwnerInvariant(RemoveOutcome(w, caller, p).1, owner)
  {
    var o := RemoveOutcome(w, caller, p);
    if o.0.Ok? {
      var e :| e in w && e.principal == owner && e.rights == Owner;
      OwnerEntryFound(w, owner);
      assert e in o.1;
    }
  }

  /** The owner's entry is the one the lookup finds, so it is never the
      target of a removal. */
  lemma OwnerEntryFound(w: seq<WhitelistEntry>, owner: Principal)
    requires OwnerInvariant(w, owner)
    ensures Listed(w, owner) && FindEntry(w, owner).value.rights == Owner
  {
  }

  /** The owner keeps full rights across any add or remove. */
  lemma OwnerKeepsRights(w: seq<WhitelistEntry>, owner: Principal, caller: Principal,
                         entryLabel: string, p: Principal, rights: Rights, now: nat)
    requires OwnerInvariant(w, owner)
    ensures HasRights(AddOutcome(w, caller, entryLabel, p, rights, now).1, owner, Owner)
    ensures HasRights(RemoveOutcome(w, caller, p).1, owner, Owner)
  {
    AddKeepsOwnerInvariant(w, owner, caller, entryLabel, p, rights, now);
    RemoveKeepsOwnerInvariant(w, owner, caller, p);
  }
}
