/** `useVehicleOwners`: the list hook over the vehicle-owner service. Its
    filter also searches the email, which the service's search does not. */
module OwnersHook {
  import opened Js
  import opened Strings
  import opened Lists
  import opened Sorting
  import opened Store
  import opened Users
  import opened ListHook
  import W = OwnerService

  const LoadFailed: string := "Failed to load vehicle owners"

  /** The hook's filter callback: name, mobile number, then email. */
  function Matches(term: string): Record -> Result<bool>
  {
    r => OrElse(LowerIncludes(Get(r, "name"), term),
         OrElse(RawIncludes(Get(r, "mobileNumber"), term),
                OptionalLowerIncludes(Get(r, "email"), term)))
  }

  /** Every owner the service's search accepts the hook's filter accepts
      too, and whenever the service's callback does not throw neither does
      the hook's up to the email. */
  lemma HookAcceptsWhatServiceAccepts(r: Record, term: string)
    ensures W.Matches(term)(r) == Ok(true) ==> Matches(term)(r) == Ok(true)
    ensures W.Matches(term)(r).Err? ==> Matches(term)(r) == W.Matches(term)(r)
    ensures W.Matches(term)(r) == Ok(false) ==> Matches(term)(r) == OptionalLowerIncludes(Get(r, "email"), term)
  {
  }

  /** So when neither search throws, the service's result is an ordered
      selection of the hook's. */
  lemma HookFilterIsBroader(list: seq<Record>, term: string)
    requires Search(list, term, W.Matches(term)).Ok? && Search(list, term, Matches(term)).Ok?
    ensures IsSubsequence(Search(list, term, W.Matches(term)).value, Search(list, term, Matches(term)).value)
  {
    SearchMeaning(list, term, W.Matches(term));
    SearchMeaning(list, term, Matches(term));
    if IsBlank(term) {
      SubsequenceReflexive(list);
    } else {
      forall i | 0 <= i < |list|
        ensures Accepts(W.Matches(term))(list[i]) ==> Accepts(Matches(term))(list[i])
      {
        HookAcceptsWhatServiceAccepts(list[i], term);
      }
      FilterWeaker(Accepts(W.Matches(term)), Accepts(Matches(term)), list);
    }
  }

  /** An owner found by email alone: shown by the hook, not by the service. */
  lemma StrictlyBroader()
    ensures var r := map["name" := Str("N"), "mobileNumber" := Str("0"), "email" := Str("x@y.lk")];
      W.Matches("x@")(r) == Ok(false) && Matches("x@")(r) == Ok(true)
  {
    assert Lower("x@") == "x@";
    assert Lower("x@y.lk") == "x@y.lk";
    assert "x@" <= "x@y.lk";
    if Contains(Lower("N"), "x@") {
      ContainsNoLonger(Lower("N"), "x@");
    }
    if Contains("0", "x@") {
      ContainsNoLonger("0", "x@");
    }
  }

  /** `loadOwners` */
  method LoadOwners(h: Hook, scan: Result<seq<Record>>) returns (thrown: Option<string>)
    requires h.Valid()
    modifies h
    ensures h.Valid()
    ensures !h.isLoading && h.searchQuery == old(h.searchQuery)
    ensures scan.Ok? ==> multiset(h.list) == multiset(W.Owners(scan.value)) && h.error == None && h.ShowsSearch(Matches, thrown)
    ensures scan.Ok? && AllKeyed(CreatedAt, W.Owners(scan.value)) ==> AllKeyed(CreatedAt, h.list) && NewestFirst(CreatedAt, h.list)
    ensures scan.Err? ==> h.list == old(h.list) && h.filtered == old(h.filtered) && h.error == Some(W.FetchFailed) && thrown == None
  {
    var fetched := W.GetAllOwners(scan);
    thrown := h.Load(fetched, LoadFailed, Matches);
  }

  /** The search effect with the hook's own callback. */
  method FilterOwners(h: Hook) returns (thrown: Option<string>)
    requires h.Valid()
    modifies h
    ensures h.Valid()
    ensures h.list == old(h.list) && h.searchQuery == old(h.searchQuery) && h.error == old(h.error)
    ensures var s := Search(h.list, h.searchQuery, Matches(h.searchQuery));
      && (s.Ok? ==> thrown == None && h.filtered == s.value)
      && (s.Err? ==> thrown == Some(s.message) && h.filtered == old(h.filtered))
  {
    thrown := h.FilterEffect(Matches);
  }

  /** `updateOwner`: the service call, then a reload only when it succeeded;
      its error is rethrown with the hook left as it was. */
  method UpdateOwner(h: Hook, table: Table, id: Option<Value>, updates: Record, now: int,
                     failure: Option<string>, reload: Result<seq<Record>>) returns (r: Result<Record>, thrown: Option<string>)
    requires h.Valid() && table.Valid() && table.keyName == KeyName
    modifies h, table
    ensures h.Valid() && table.Valid()
    ensures r.Ok? <==> failure.None? && KeyOf(UserKey(id), KeyName).Some?
    ensures r.Err? ==> r.message == W.UpdateFailed && table.items == old(table.items) && unchanged(h)
    ensures r.Ok? ==> r.value == map["success" := Bool(true)]
    ensures r.Ok? ==>
      table.items == Upsert(old(table.items), KeyName, KeyOf(UserKey(id), KeyName).value, Stamped(updates, now))
    ensures r.Ok? ==> !h.isLoading && (reload.Ok? <==> h.error == None)
    ensures r.Ok? && reload.Ok? ==> multiset(h.list) == multiset(W.Owners(reload.value)) && h.ShowsSearch(Matches, thrown)
    ensures r.Ok? && reload.Ok? && AllKeyed(CreatedAt, W.Owners(reload.value)) ==> AllKeyed(CreatedAt, h.list) && NewestFirst(CreatedAt, h.list)
    ensures r.Err? || reload.Err? ==> thrown == None
  {
    var done := W.UpdateOwner(table, id, updates, now, failure);
    if done.Err? {
      return Err(done.message), None;
    }
    thrown := LoadOwners(h, reload);
    r := Ok(map["success" := Bool(true)]);
  }

  /** `deleteOwner` */
  method DeleteOwner(h: Hook, table: Table, id: Option<Value>, failure: Option<string>,
                     reload: Result<seq<Record>>) returns (r: Result<Record>, thrown: Option<string>)
    requires h.Valid() && table.Valid() && table.keyName == KeyName
    modifies h, table
    ensures h.Valid() && table.Valid()
    ensures r.Ok? <==> failure.None? && KeyOf(UserKey(id), KeyName).Some?
    ensures r.Err? ==> r.message == W.DeleteFailed && table.items == old(table.items) && unchanged(h)
    ensures r.Ok? ==> r.value == map["success" := Bool(true)]
    ensures r.Ok? ==> table.items == Remove(old(table.items), KeyName, KeyOf(UserKey(id), KeyName).value)
    ensures r.Ok? ==> !h.isLoading && (reload.Ok? <==> h.error == None)
    ensures r.Ok? && reload.Ok? ==> multiset(h.list) == multiset(W.Owners(reload.value)) && h.ShowsSearch(Matches, thrown)
    ensures r.Ok? && reload.Ok? && AllKeyed(CreatedAt, W.Owners(reload.value)) ==> AllKeyed(CreatedAt, h.list) && NewestFirst(CreatedAt, h.list)
    ensures r.Err? || reload.Err? ==> thrown == None
  {
    var done := W.DeleteOwner(table, id, failure);
    if done.Err? {
      return Err(done.message), None;
    }
    thrown := LoadOwners(h, reload);
    r := Ok(map["success" := Bool(true)]);
  }
}
