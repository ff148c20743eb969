/** The vehicle-owner service (`vehicleOwnerService.jsx`): the listing, the
    search, status and NIC queries over it, and the writes to the users
    table. */
module OwnerService {
  import opened Js
  import opened Strings
  import opened Lists
  import opened Sorting
  import opened Store
  import opened Users

  const FetchFailed: string := "Failed to fetch vehicle owners"
  const UpdateFailed: string := "Failed to update vehicle owner"
  const DeleteFailed: string := "Failed to delete vehicle owner"
  const SearchFailed: string := "Failed to search vehicle owners"
  const ByStatusFailed: string := "Failed to fetch owners by status"
  const ByNicFailed: string := "Failed to fetch owner by NIC"

  predicate IsOwner(r: Record)
  {
    OfType(r, "vehicle_owner")
  }

  /** The stored properties the listing copies as they are. */
  const CopiedFields: set<string> := {"userId", "name", "mobileNumber", "nicNumber", "registeredDate",
    "createdAt", "updatedAt"}

  /** The record the listing shows for a stored owner. */
  function OwnerView(item: Record): (v: Record)
    ensures forall k :: k in CopiedFields ==> Get(v, k) == Get(item, k)
    ensures Get(v, "id") == if Truthy(Get(item, "id")) then Get(item, "id") else Get(item, "vehicleOwnerId")
    ensures Get(v, "status") == if Truthy(Get(item, "status")) then Get(item, "status") else Some(Str("online"))
    ensures Get(v, "email") == if Truthy(Get(item, "email")) then Get(item, "email") else Some(Str(""))
    ensures v.Keys <= CopiedFields + {"id", "status", "email"}
  {
    assert "id" !in CopiedFields && "status" !in CopiedFields && "email" !in CopiedFields;
    SetField(Pick(item, CopiedFields)["status" := Or(Get(item, "status"), Some(Str("online"))).value]
                                     ["email" := Or(Get(item, "email"), Some(Str(""))).value],
             "id", Or(Get(item, "id"), Get(item, "vehicleOwnerId")))
  }

  function Owners(items: seq<Record>): seq<Record>
  {
    Map(OwnerView, Filter(IsOwner, items))
  }

  /** `getAllOwners`: the owners' views, newest first whenever every owner
      has a timestamp. */
  method GetAllOwners(scan: Result<seq<Record>>) returns (r: Result<seq<Record>>)
    ensures scan.Err? <==> r.Err?
    ensures r.Err? ==> r.message == FetchFailed
    ensures r.Ok? ==> multiset(r.value) == multiset(Owners(scan.value))
    ensures r.Ok? && AllKeyed(CreatedAt, Owners(scan.value)) ==>
              AllKeyed(CreatedAt, r.value) && NewestFirst(CreatedAt, r.value)
  {
    if scan.Err? {
      return Err(FetchFailed);
    }
    var sorted := SortedNewestFirst(Owners(scan.value), CreatedAt);
    r := Ok(sorted);
  }

  /** Every listed owner is a stored owner's view, and every stored owner is
      listed. */
  lemma OwnersListed(items: seq<Record>, r: Record)
    ensures r in Owners(items) <==> exists x :: x in items && IsOwner(x) && r == OwnerView(x)
  {
    FilterMapMembers(IsOwner, OwnerView, items, r);
  }

  // ---- updateOwner, deleteOwner ----

  /** `updateOwner`: every property of `updates`, stamped with `updatedAt`,
      is merged into the owner's record; nothing is stripped. */
  method UpdateOwner(table: Table, id: Option<Value>, updates: Record, now: int, failure: Option<string>)
    returns (r: Result<()>)
    requires table.Valid() && table.keyName == KeyName
    modifies table
    ensures table.Valid()
    ensures r.Ok? <==> failure.None? && KeyOf(UserKey(id), KeyName).Some?
    ensures r.Ok? ==>
      table.items == Upsert(old(table.items), KeyName, KeyOf(UserKey(id), KeyName).value, Stamped(updates, now))
    ensures r.Err? ==> r.message == UpdateFailed && table.items == old(table.items)
  {
    var updated := table.UpdateItem(UserKey(id), Stamped(updates, now), failure);
    r := if updated.Ok? then Ok(()) else Err(UpdateFailed);
  }

  /** `deleteOwner` */
  method DeleteOwner(table: Table, id: Option<Value>, failure: Option<string>) returns (r: Result<()>)
    requires table.Valid() && table.keyName == KeyName
    modifies table
    ensures table.Valid()
    ensures r.Ok? <==> failure.None? && KeyOf(UserKey(id), KeyName).Some?
    ensures r.Ok? ==> table.items == Remove(old(table.items), KeyName, KeyOf(UserKey(id), KeyName).value)
    ensures r.Err? ==> r.message == DeleteFailed && table.items == old(table.items)
  {
    var deleted := table.DeleteItem(UserKey(id), failure);
    r := if deleted.Ok? then Ok(()) else Err(DeleteFailed);
  }

  // ---- searchOwners, getOwnersByStatus, getOwnerByNIC ----

  /** The search callback of `searchOwners`: name (lowercased) or mobile
      number (as typed); the email is not searched. */
  function Matches(term: string): Record -> Result<bool>
  {
    r => OrElse(LowerIncludes(Get(r, "name"), term), RawIncludes(Get(r, "mobileNumber"), term))
  }

  /** For string names and numbers the callback is exactly "the name or the
      number contains the term", whatever the email says. */
  lemma MatchesMeaning(r: Record, term: string, name: string, mobile: string)
    requires Get(r, "name") == Some(Str(name)) && Get(r, "mobileNumber") == Some(Str(mobile))
    ensures Matches(term)(r) == Ok(Contains(Lower(name), Lower(term)) || Contains(mobile, term))
    ensures forall e :: Matches(term)(SetField(r, "email", e)) == Matches(term)(r)
  {
    forall e
      ensures Matches(term)(SetField(r, "email", e)) == Matches(term)(r)
    {
      var r' := SetField(r, "email", e);
      assert Get(r', "name") == Get(r, "name") && Get(r', "mobileNumber") == Get(r, "mobileNumber");
    }
  }

  /** `searchOwners`: fetch, then search. `listed` is the fetched list. */
  method SearchOwners(scan: Result<seq<Record>>, term: string) returns (r: Result<seq<Record>>, ghost listed: seq<Record>)
    ensures scan.Err? ==> r == Err(SearchFailed)
    ensures scan.Ok? ==> multiset(listed) == multiset(Owners(scan.value))
    ensures scan.Ok? && AllKeyed(CreatedAt, Owners(scan.value)) ==>
              AllKeyed(CreatedAt, listed) && NewestFirst(CreatedAt, listed)
    ensures scan.Ok? ==> r == Rethrow(Search(listed, term, Matches(term)), SearchFailed)
  {
    var all := GetAllOwners(scan);
    if all.Err? {
      return Err(SearchFailed), [];
    }
    listed := all.value;
    r := Rethrow(Search(all.value, term, Matches(term)), SearchFailed);
  }

  /** `getOwnersByStatus` */
  method GetOwnersByStatus(scan: Result<seq<Record>>, status: Option<Value>) returns (r: Result<seq<Record>>, ghost listed: seq<Record>)
    ensures scan.Err? ==> r == Err(ByStatusFailed)
    ensures scan.Ok? ==> multiset(listed) == multiset(Owners(scan.value))
    ensures scan.Ok? && AllKeyed(CreatedAt, Owners(scan.value)) ==>
              AllKeyed(CreatedAt, listed) && NewestFirst(CreatedAt, listed)
    ensures scan.Ok? ==> r == Ok(Filter(StatusIs(status), listed))
  {
    var all := GetAllOwners(scan);
    if all.Err? {
      return Err(ByStatusFailed), [];
    }
    listed := all.value;
    r := Ok(Filter(StatusIs(status), all.value));
  }

  /** `(owner) => owner.nicNumber === nicNumber` */
  function NicIs(nic: Option<Value>): Record -> bool
  {
    r => Get(r, "nicNumber") == nic
  }

  /** What `find` by NIC number returns from a listing: nothing exactly when
      no owner has that number, otherwise the first that does, which in a
      newest-first listing is the newest. */
  lemma FindByNic(listed: seq<Record>, nic: Option<Value>)
    ensures var f := Find(NicIs(nic), listed);
      && (f.None? <==> forall i :: 0 <= i < |listed| ==> Get(listed[i], "nicNumber") != nic)
      && (f.Some? ==>
            exists k :: 0 <= k < |listed| && listed[k] == f.value && Get(listed[k], "nicNumber") == nic &&
              forall j :: 0 <= j < k ==> Get(listed[j], "nicNumber") != nic)
      && (f.Some? && AllKeyed(CreatedAt, listed) && NewestFirst(CreatedAt, listed) ==>
            forall j :: 0 <= j < |listed| && Get(listed[j], "nicNumber") == nic ==>
              CreatedAt(f.value).value >= CreatedAt(listed[j]).value)
  {
    var p := NicIs(nic);
    FindFirst(p, listed);
    var f := Find(p, listed);
    if f.Some? && AllKeyed(CreatedAt, listed) && NewestFirst(CreatedAt, listed) {
      var k :| 0 <= k < |listed| && listed[k] == f.value && p(listed[k]) && forall i :: 0 <= i < k ==> !p(listed[i]);
      FirstMatchIsNewest(CreatedAt, listed, p, k);
    }
  }

  /** `getOwnerByNIC`: the first listed owner with that NIC number, or
      `null`; when every owner has a timestamp, the newest such owner. */
  method GetOwnerByNic(scan: Result<seq<Record>>, nic: Option<Value>) returns (r: Result<Option<Record>>, ghost listed: seq<Record>)
    ensures scan.Err? ==> r == Err(ByNicFailed)
    ensures scan.Ok? ==> multiset(listed) == multiset(Owners(scan.value))
    ensures scan.Ok? && AllKeyed(CreatedAt, Owners(scan.value)) ==>
              AllKeyed(CreatedAt, listed) && NewestFirst(CreatedAt, listed)
    ensures scan.Ok? ==> r == Ok(Find(NicIs(nic), listed))
    ensures scan.Ok? ==> r.Ok? && (r.value.None? <==> forall i :: 0 <= i < |listed| ==> Get(listed[i], "nicNumber") != nic)
    ensures scan.Ok? && r.value.Some? ==>
      exists k :: 0 <= k < |listed| && listed[k] == r.value.value && Get(listed[k], "nicNumber") == nic &&
        forall j :: 0 <= j < k ==> Get(listed[j], "nicNumber") != nic
    ensures scan.Ok? && r.value.Some? && AllKeyed(CreatedAt, Owners(scan.value)) ==>
      forall j :: 0 <= j < |listed| && Get(listed[j], "nicNumber") == nic ==>
        CreatedAt(r.value.value).value >= CreatedAt(listed[j]).value
  {
    var all := GetAllOwners(scan);
    if all.Err? {
      return Err(ByNicFailed), [];
    }
    listed := all.value;
    FindByNic(listed, nic);
    r := Ok(Find(NicIs(nic), all.value));
  }
}
