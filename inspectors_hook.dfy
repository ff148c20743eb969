/** `useInspectors`: the list hook over the inspector service. */
module InspectorsHook {
  import opened Js
  import opened Sorting
  import opened Store
  import opened Users
  import opened ListHook
  import I = InspectorService

  const LoadFailed: string := "Failed to load parking inspectors"

  /** `loadInspectors`. The service always fails with its own non-empty
      message, so that message, not the hook's fallback, is what is shown. */
  method LoadInspectors(h: Hook, scan: Result<seq<Record>>) returns (thrown: Option<string>)
    requires h.Valid()
    modifies h
    ensures h.Valid()
    ensures !h.isLoading && h.searchQuery == old(h.searchQuery)
    ensures scan.Ok? ==> multiset(h.list) == multiset(I.Inspectors(scan.value)) && h.error == None && h.ShowsSearch(I.Matches, thrown)
    ensures scan.Ok? && AllKeyed(CreatedAtOrZero, I.Inspectors(scan.value)) ==> AllKeyed(CreatedAtOrZero, h.list) && NewestFirst(CreatedAtOrZero, h.list)
    ensures scan.Err? ==> h.list == old(h.list) && h.filtered == old(h.filtered) && h.error == Some(I.FetchFailed) && thrown == None
  {
    var fetched := I.GetAllInspectors(scan);
    thrown := h.Load(fetched, LoadFailed, I.Matches);
  }

  /** The search effect, with the same callback as `searchInspectors`. */
  method FilterInspectors(h: Hook) returns (thrown: Option<string>)
    requires h.Valid()
    modifies h
    ensures h.Valid()
    ensures h.list == old(h.list) && h.searchQuery == old(h.searchQuery) && h.error == old(h.error)
    ensures var s := Search(h.list, h.searchQuery, I.Matches(h.searchQuery));
      && (s.Ok? ==> thrown == None && h.filtered == s.value)
      && (s.Err? ==> thrown == Some(s.message) && h.filtered == old(h.filtered))
  {
    thrown := h.FilterEffect(I.Matches);
  }

  /** `addInspector`: the service call, then a reload only when it
      succeeded; its error is rethrown with the hook left as it was. */
  method AddInspector(h: Hook, table: Table, data: Record, scan: Result<seq<Record>>, now: int,
                      failure: Option<string>, reload: Result<seq<Record>>) returns (r: Result<Record>, thrown: Option<string>)
    requires h.Valid() && table.Valid() && table.keyName == KeyName
    modifies h, table
    ensures h.Valid() && table.Valid()
    ensures r.Ok? <==> (I.AssignedId(data, scan).Ok? && failure.None? &&
                        ItemKey(I.NewInspector(data, I.AssignedId(data, scan).value, now), KeyName).Some?)
    ensures r.Err? ==> r.message == I.AddFailed && table.items == old(table.items) && unchanged(h)
    ensures r.Ok? ==> table.items == Put(old(table.items), KeyName, I.NewInspector(data, I.AssignedId(data, scan).value, now))
    ensures r.Ok? ==> r.value == Success("Inspector added successfully")["inspectorId" := I.AssignedId(data, scan).value]
    ensures r.Ok? ==> !h.isLoading && (reload.Ok? <==> h.error == None)
    ensures r.Ok? && reload.Ok? ==> multiset(h.list) == multiset(I.Inspectors(reload.value)) && h.ShowsSearch(I.Matches, thrown)
    ensures r.Ok? && reload.Ok? && AllKeyed(CreatedAtOrZero, I.Inspectors(reload.value)) ==> AllKeyed(CreatedAtOrZero, h.list) && NewestFirst(CreatedAtOrZero, h.list)
    ensures r.Err? || reload.Err? ==> thrown == None
  {
    thrown := None;
    r := I.AddInspector(table, data, scan, now, failure);
    if r.Err? {
      return;
    }
    thrown := LoadInspectors(h, reload);
  }

  /** `updateInspector` */
  method UpdateInspector(h: Hook, table: Table, id: Option<Value>, updates: Record, now: int,
                         failure: Option<string>, reload: Result<seq<Record>>) returns (r: Result<Record>, thrown: Option<string>)
    requires h.Valid() && table.Valid() && table.keyName == KeyName
    modifies h, table
    ensures h.Valid() && table.Valid()
    ensures r.Ok? <==> failure.None? && KeyOf(UserKey(id), KeyName).Some?
    ensures r.Err? ==> r.message == I.UpdateFailed && table.items == old(table.items) && unchanged(h)
    ensures r.Ok? ==> r.value == map["success" := Bool(true)]
    ensures r.Ok? ==>
      table.items == Upsert(old(table.items), KeyName, KeyOf(UserKey(id), KeyName).value, I.UpdatePayload(updates, now))
    ensures r.Ok? ==> !h.isLoading && (reload.Ok? <==> h.error == None)
    ensures r.Ok? && reload.Ok? ==> multiset(h.list) == multiset(I.Inspectors(reload.value)) && h.ShowsSearch(I.Matches, thrown)
    ensures r.Ok? && reload.Ok? && AllKeyed(CreatedAtOrZero, I.Inspectors(reload.value)) ==> AllKeyed(CreatedAtOrZero, h.list) && NewestFirst(CreatedAtOrZero, h.list)
    ensures r.Err? || reload.Err? ==> thrown == None
  {
    var done := I.UpdateInspector(table, id, updates, now, failure);
    if done.Err? {
      return Err(done.message), None;
    }
    thrown := LoadInspectors(h, reload);
    r := Ok(map["success" := Bool(true)]);
  }

  /** `deleteInspector` */
  method DeleteInspector(h: Hook, table: Table, id: Option<Value>, failure: Option<string>,
                         reload: Result<seq<Record>>) returns (r: Result<Record>, thrown: Option<string>)
    requires h.Valid() && table.Valid() && table.keyName == KeyName
    modifies h, table
    ensures h.Valid() && table.Valid()
    ensures r.Ok? <==> failure.None? && KeyOf(UserKey(id), KeyName).Some?
    ensures r.Err? ==> r.message == I.DeleteFailed && table.items == old(table.items) && unchanged(h)
    ensures r.Ok? ==> r.value == map["success" := Bool(true)]
    ensures r.Ok? ==> table.items == Remove(old(table.items), KeyName, KeyOf(UserKey(id), KeyName).value)
    ensures r.Ok? ==> !h.isLoading && (reload.Ok? <==> h.error == None)
    ensures r.Ok? && reload.Ok? ==> multiset(h.list) == multiset(I.Inspectors(reload.value)) && h.ShowsSearch(I.Matches, thrown)
    ensures r.Ok? && reload.Ok? && AllKeyed(CreatedAtOrZero, I.Inspectors(reload.value)) ==> AllKeyed(CreatedAtOrZero, h.list) && NewestFirst(CreatedAtOrZero, h.list)
    ensures r.Err? || reload.Err? ==> thrown == None
  {
    var done := I.DeleteInspector(table, id, failure);
    if done.Err? {
      return Err(done.message), None;
    }
    thrown := LoadInspectors(h, reload);
    r := Ok(map["success" := Bool(true)]);
  }

  /** `updateStatus` */
  method UpdateStatus(h: Hook, table: Table, id: Option<Value>, status: Option<Value>, now: int,
                      failure: Option<string>, reload: Result<seq<Record>>) returns (r: Result<Record>, thrown: Option<string>)
    requires h.Valid() && table.Valid() && table.keyName == KeyName
    modifies h, table
    ensures h.Valid() && table.Valid()
    ensures r.Ok? <==> failure.None? && KeyOf(UserKey(id), KeyName).Some?
    ensures r.Err? ==> r.message == I.StatusFailed && table.items == old(table.items) && unchanged(h)
    ensures r.Ok? ==> r.value == map["success" := Bool(true)]
    ensures r.Ok? ==>
      table.items == Upsert(old(table.items), KeyName, KeyOf(UserKey(id), KeyName).value, I.StatusPayload(status, now))
    ensures r.Ok? ==> !h.isLoading && (reload.Ok? <==> h.error == None)
    ensures r.Ok? && reload.Ok? ==> multiset(h.list) == multiset(I.Inspectors(reload.value)) && h.ShowsSearch(I.Matches, thrown)
    ensures r.Ok? && reload.Ok? && AllKeyed(CreatedAtOrZero, I.Inspectors(reload.value)) ==> AllKeyed(CreatedAtOrZero, h.list) && NewestFirst(CreatedAtOrZero, h.list)
    ensures r.Err? || reload.Err? ==> thrown == None
  {
    var done := I.UpdateInspectorStatus(table, id, status, now, failure);
    if done.Err? {
      return Err(done.message), None;
    }
    thrown := LoadInspectors(h, reload);
    r := Ok(map["success" := Bool(true)]);
  }
}
