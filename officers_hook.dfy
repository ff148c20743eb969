/** `useMCOfficers`: the list hook over the council-officer service. */
module OfficersHook {
  import opened Js
  import opened Sorting
  import opened Store
  import opened Users
  import opened ListHook
  import O = OfficerService

  const LoadFailed: string := "Failed to load MC officers"

  /** `loadOfficers` */
  method LoadOfficers(h: Hook, scan: Result<seq<Record>>) returns (thrown: Option<string>)
    requires h.Valid()
    modifies h
    ensures h.Valid()
    ensures !h.isLoading && h.searchQuery == old(h.searchQuery)
    ensures scan.Ok? ==> multiset(h.list) == multiset(O.Officers(scan.value)) && h.error == None && h.ShowsSearch(O.Matches, thrown)
    ensures scan.Ok? && AllKeyed(TruthyCreatedAt, O.Officers(scan.value)) ==> AllKeyed(TruthyCreatedAt, h.list) && NewestFirst(TruthyCreatedAt, h.list)
    ensures scan.Err? ==> h.list == old(h.list) && h.filtered == old(h.filtered) && h.error == Some(O.FetchFailed) && thrown == None
  {
    var fetched := O.GetAllOfficers(scan);
    thrown := h.Load(fetched, LoadFailed, O.Matches);
  }

  /** The search effect, with the same callback as `searchOfficers`. */
  method FilterOfficers(h: Hook) returns (thrown: Option<string>)
    requires h.Valid()
    modifies h
    ensures h.Valid()
    ensures h.list == old(h.list) && h.searchQuery == old(h.searchQuery) && h.error == old(h.error)
    ensures var s := Search(h.list, h.searchQuery, O.Matches(h.searchQuery));
      && (s.Ok? ==> thrown == None && h.filtered == s.value)
      && (s.Err? ==> thrown == Some(s.message) && h.filtered == old(h.filtered))
  {
    thrown := h.FilterEffect(O.Matches);
  }

  /** `addOfficer`: the service call, then a reload only when it succeeded;
      its error is rethrown with the hook left as it was. */
  method AddOfficer(h: Hook, table: Table, data: Record, scan: Result<seq<Record>>, now: nat, random: string,
                    hash: Option<Value> -> Result<string>, failure: Option<string>, reload: Result<seq<Record>>)
    returns (r: Result<Record>, thrown: Option<string>, ghost listed: Result<seq<Record>>)
    requires h.Valid() && table.Valid() && table.keyName == KeyName
    modifies h, table
    ensures h.Valid() && table.Valid()
    ensures r.Ok? <==> (hash(Get(data, "password")).Ok? && failure.None? &&
                        ItemKey(O.NewOfficer(data, O.RecordId(now, random), O.OfficerIdFor(listed, now),
                                             hash(Get(data, "password")).value, now), KeyName).Some?)
    ensures scan.Err? <==> listed.Err?
    ensures listed.Ok? ==> multiset(listed.value) == multiset(O.Officers(scan.value))
    ensures r.Err? ==> r.message == O.AddFailed && table.items == old(table.items) && unchanged(h)
    ensures r.Ok? ==> r.value == map["success" := Bool(true)]
    ensures r.Ok? ==>
      table.items == Put(old(table.items), KeyName,
                         O.NewOfficer(data, O.RecordId(now, random), O.OfficerIdFor(listed, now),
                                      hash(Get(data, "password")).value, now))
    ensures r.Ok? ==> !h.isLoading && (reload.Ok? <==> h.error == None)
    ensures r.Ok? && reload.Ok? ==> multiset(h.list) == multiset(O.Officers(reload.value)) && h.ShowsSearch(O.Matches, thrown)
    ensures r.Ok? && reload.Ok? && AllKeyed(TruthyCreatedAt, O.Officers(reload.value)) ==> AllKeyed(TruthyCreatedAt, h.list) && NewestFirst(TruthyCreatedAt, h.list)
    ensures r.Err? || reload.Err? ==> thrown == None
  {
    var added;
    added, listed := O.AddOfficer(table, data, scan, now, random, hash, failure);
    if added.Err? {
      return Err(added.message), None, listed;
    }
    thrown := LoadOfficers(h, reload);
    r := Ok(map["success" := Bool(true)]);
  }

  /** `updateOfficer` */
  method UpdateOfficer(h: Hook, table: Table, id: Option<Value>, updates: Record, now: int,
                       failure: Option<string>, reload: Result<seq<Record>>) returns (r: Result<Record>, thrown: Option<string>)
    requires h.Valid() && table.Valid() && table.keyName == KeyName
    modifies h, table
    ensures h.Valid() && table.Valid()
    ensures r.Ok? <==> failure.None? && KeyOf(UserKey(id), KeyName).Some?
    ensures r.Err? ==> r.message == O.UpdateFailed && table.items == old(table.items) && unchanged(h)
    ensures r.Ok? ==> r.value == map["success" := Bool(true)]
    ensures r.Ok? ==>
      table.items == Upsert(old(table.items), KeyName, KeyOf(UserKey(id), KeyName).value, Stamped(WithoutUnderscorePassword(updates), now))
    ensures r.Ok? ==> !h.isLoading && (reload.Ok? <==> h.error == None)
    ensures r.Ok? && reload.Ok? ==> multiset(h.list) == multiset(O.Officers(reload.value)) && h.ShowsSearch(O.Matches, thrown)
    ensures r.Ok? && reload.Ok? && AllKeyed(TruthyCreatedAt, O.Officers(reload.value)) ==> AllKeyed(TruthyCreatedAt, h.list) && NewestFirst(TruthyCreatedAt, h.list)
    ensures r.Err? || reload.Err? ==> thrown == None
  {
    var done := O.UpdateOfficer(table, id, updates, now, failure);
    if done.Err? {
      return Err(done.message), None;
    }
    thrown := LoadOfficers(h, reload);
    r := Ok(map["success" := Bool(true)]);
  }

  /** `deleteOfficer` */
  method DeleteOfficer(h: Hook, table: Table, id: Option<Value>, failure: Option<string>,
                       reload: Result<seq<Record>>) returns (r: Result<Record>, thrown: Option<string>)
    requires h.Valid() && table.Valid() && table.keyName == KeyName
    modifies h, table
    ensures h.Valid() && table.Valid()
    ensures r.Ok? <==> failure.None? && KeyOf(UserKey(id), KeyName).Some?
    ensures r.Err? ==> r.message == O.DeleteFailed && table.items == old(table.items) && unchanged(h)
    ensures r.Ok? ==> r.value == map["success" := Bool(true)]
    ensures r.Ok? ==> table.items == Remove(old(table.items), KeyName, KeyOf(UserKey(id), KeyName).value)
    ensures r.Ok? ==> !h.isLoading && (reload.Ok? <==> h.error == None)
    ensures r.Ok? && reload.Ok? ==> multiset(h.list) == multiset(O.Officers(reload.value)) && h.ShowsSearch(O.Matches, thrown)
    ensures r.Ok? && reload.Ok? && AllKeyed(TruthyCreatedAt, O.Officers(reload.value)) ==> AllKeyed(TruthyCreatedAt, h.list) && NewestFirst(TruthyCreatedAt, h.list)
    ensures r.Err? || reload.Err? ==> thrown == None
  {
    var done := O.DeleteOfficer(table, id, failure);
    if done.Err? {
      return Err(done.message), None;
    }
    thrown := LoadOfficers(h, reload);
    r := Ok(map["success" := Bool(true)]);
  }
}
