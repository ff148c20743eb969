/** The parking-inspector service (`inspectorService.jsx`): display-id
    allocation, the listing with its defaults and order, search and status
    filters, and the writes to the users table.

    A scan of the table is a parameter: the list of items it returned, or the
    error it failed with. */
module InspectorService {
  import opened Js
  import opened Strings
  import opened Lists
  import opened Sorting
  import opened Store
  import opened Users

  const FetchFailed: string := "Failed to fetch inspectors"
  const AddFailed: string := "Failed to add inspector"
  const UpdateFailed: string := "Failed to update inspector"
  const DeleteFailed: string := "Failed to delete inspector"
  const StatusFailed: string := "Failed to update status"
  const SearchFailed: string := "Failed to search inspectors"
  const ByStatusFailed: string := "Failed to fetch inspectors by status"
  const AssignFailed: string := "Failed to assign zone"
  const FirstId: string := "Ins0001"

  predicate IsInspector(r: Record)
  {
    OfType(r, "inspector")
  }

  /** The items the allocator looks at: inspectors with a truthy `inspectorId`. */
  predicate IsNumbered(r: Record)
  {
    IsInspector(r) && Truthy(Get(r, "inspectorId"))
  }

  // ---- generateInspectorId ----

  /** `parseInt(id.replace('Ins', ''), 10)`, with `NaN` counted as 0. */
  function IdNumber(id: string): int
  {
    match ParseInt(RemoveFirst(id, "Ins"))
    case None => 0
    case Some(n) => n
  }

  /** The items' `inspectorId` strings, in order; `.replace` throws on an id
      that is not a string. */
  function IdTexts(items: seq<Record>): (r: Result<seq<string>>)
    ensures r.Ok? <==> forall i :: 0 <= i < |items| ==> AsString(Get(items[i], "inspectorId")).Some?
    ensures r.Ok? ==> |r.value| == |items|
    ensures r.Ok? ==> forall i :: 0 <= i < |items| ==> r.value[i] == AsString(Get(items[i], "inspectorId")).value
    decreases |items|
  {
    if items == [] then Ok([])
    else match AsString(Get(items[0], "inspectorId"))
      case None => Err(TypeErrorMessage)
      case Some(id) =>
        match IdTexts(items[1..])
        case Err(m) => Err(m)
        case Ok(rest) =>
          assert forall i :: 1 <= i < |items| ==> items[i] == items[1..][i - 1];
          Ok([id] + rest)
  }

  /** The id numbers of the items, in order. */
  function IdNumbers(items: seq<Record>): (r: Result<seq<int>>)
    ensures r.Ok? <==> forall i :: 0 <= i < |items| ==> AsString(Get(items[i], "inspectorId")).Some?
    ensures r.Ok? ==> |r.value| == |items|
    ensures r.Ok? ==> forall i :: 0 <= i < |items| ==> r.value[i] == IdNumber(AsString(Get(items[i], "inspectorId")).value)
  {
    match IdTexts(items)
    case Err(m) => Err(m)
    case Ok(ids) => Ok(seq(|ids|, i requires 0 <= i < |ids| => IdNumber(ids[i])))
  }

  /** `Math.max(...ns)` */
  function Max(ns: seq<int>): (m: int)
    requires |ns| > 0
    ensures (forall i :: 0 <= i < |ns| ==> ns[i] <= m) && m in ns
  {
    if |ns| == 1 then ns[0]
    else
      var rest := Max(ns[1..]);
      assert rest in ns;
      if ns[0] >= rest then ns[0] else rest
  }

  /** `` `Ins${n.toString().padStart(4, '0')}` `` */
  function FormatId(n: int): string
  {
    "Ins" + PadStart(IntToString(n), 4, '0')
  }

  /** The allocator over the scanned items. */
  function GenerateInspectorId(items: seq<Record>): Result<string>
  {
    var numbered := Filter(IsNumbered, items);
    if numbered == [] then Ok(FirstId)
    else match IdNumbers(numbered)
      case Err(m) => Err(m)
      case Ok(ns) => Ok(FormatId(Max(ns) + 1))
  }

  /** With no numbered inspector the first id is `Ins0001`. */
  lemma FirstInspectorId(items: seq<Record>)
    requires forall i :: 0 <= i < |items| ==> !IsNumbered(items[i])
    ensures GenerateInspectorId(items) == Ok(FirstId)
  {
    FilterMembers(IsNumbered, items);
    if Filter(IsNumbered, items) != [] {
      assert Filter(IsNumbered, items)[0] in Filter(IsNumbered, items);
    }
  }

  /** `Ins` followed by p loses exactly its prefix. */
  lemma RemovePrefix(p: string)
    ensures RemoveFirst("Ins" + p, "Ins") == p
  {
    var s := "Ins" + p;
    assert "Ins" <= s && s[3..] == p;
  }

  /** The number printed into an id reads back as that number when it is not
      negative. */
  lemma FormatIdNatural(n: nat)
    ensures IdNumber(FormatId(n)) == n
  {
    var p := PadStart(NatToString(n), 4, '0');
    RemovePrefix(p);
    PadStartKeepsValue(NatToString(n), 4);
    ParseIntOfDigits(p, "");
    assert p + "" == p;
    NatToStringRoundTrip(n);
  }

  /** `parseInt` stops at a sign that follows zeros. */
  lemma ParseZerosThenSign(k: nat, rest: string)
    requires k > 0 && rest != [] && rest[0] == '-'
    ensures ParseInt(Repeat('0', k) + rest) == Some(0)
  {
    var zeros := Repeat('0', k);
    var t := zeros + rest;
    assert t[0] == '0';
    TrimStartNoSpace(t);
    ZerosValue(k);
    LeadingDigitsOf(zeros, rest);
  }

  /** The text of an id number after its prefix reads back through
      `IdNumber`. */
  lemma IdNumberOf(n: int, v: int)
    requires ParseInt(PadStart(IntToString(n), 4, '0')) == Some(v)
    ensures IdNumber(FormatId(n)) == v
  {
    RemovePrefix(PadStart(IntToString(n), 4, '0'));
  }

  /** A negative number reads back as itself once it fills the width... */
  lemma FormatIdLongNegative(n: int)
    requires n <= -100
    ensures IdNumber(FormatId(n)) == n
  {
    PaddedLongNegative(n);
    ParseIntOfIntToString(n);
    IdNumberOf(n, n);
  }

  /** ...and as 0 when zeros are padded in front of its sign. */
  lemma FormatIdShortNegative(n: int)
    requires -100 < n < 0
    ensures IdNumber(FormatId(n)) == 0
  {
    var k := PaddedShortNegative(n);
    ParseZerosThenSign(k, IntToString(n));
    IdNumberOf(n, 0);
  }

  /** A long negative number is not padded. */
  lemma PaddedLongNegative(n: int)
    requires n <= -100
    ensures PadStart(IntToString(n), 4, '0') == IntToString(n)
  {
    NatToStringShortBound(-n);
  }

  /** A short negative number is padded with zeros in front of its sign. */
  lemma PaddedShortNegative(n: int) returns (k: nat)
    requires -100 < n < 0
    ensures k > 0 && IntToString(n) != [] && IntToString(n)[0] == '-'
    ensures PadStart(IntToString(n), 4, '0') == Repeat('0', k) + IntToString(n)
  {
    NatToStringShortBound(-n);
    k := 4 - |IntToString(n)|;
  }

  /** Numbers below 100 print in at most two digits, larger ones in at least three. */
  lemma NatToStringShortBound(n: nat)
    ensures n < 100 <==> |NatToString(n)| <= 2
  {
    if n >= 100 {
      assert |NatToString(n / 10)| >= 2 by { NatToStringShortBound(n / 10); }
    }
  }

  /** The number printed into an id reads back as at least that number, and
      exactly that number when it is not negative. */
  lemma FormatIdNumber(n: int)
    ensures IdNumber(FormatId(n)) >= n
    ensures n >= 0 ==> IdNumber(FormatId(n)) == n
  {
    if n >= 0 {
      FormatIdNatural(n);
    } else if n <= -100 {
      FormatIdLongNegative(n);
    } else {
      FormatIdShortNegative(n);
    }
  }

  lemma {:induction false} ZerosValue(k: nat)
    ensures AllDigits(Repeat('0', k)) && DigitsValue(Repeat('0', k)) == 0
  {
    if k > 0 {
      ZerosValue(k - 1);
      LeadingZero(Repeat('0', k - 1));
      assert Repeat('0', k) == "0" + Repeat('0', k - 1);
    }
  }

  /** Every allocated id reads back as a number above the number of every
      numbered inspector: `Ins0001` when there is none, and otherwise `Ins`
      and the largest number plus one. A fresh id, as long as the items are
      not written concurrently. */
  lemma NextInspectorIdIsFresh(items: seq<Record>, id: string)
    requires GenerateInspectorId(items) == Ok(id)
    ensures forall i :: 0 <= i < |items| && IsNumbered(items[i]) ==>
      AsString(Get(items[i], "inspectorId")).Some? &&
      IdNumber(id) > IdNumber(AsString(Get(items[i], "inspectorId")).value)
  {
    var numbered := Filter(IsNumbered, items);
    if numbered == [] {
      FilterMembers(IsNumbered, items);
      return;
    }
    var ns := IdNumbers(numbered).value;
    var n := Max(ns) + 1;
    assert id == FormatId(n);
    FormatIdNumber(n);
    forall i | 0 <= i < |items| && IsNumbered(items[i])
      ensures AsString(Get(items[i], "inspectorId")).Some? &&
        IdNumber(id) > IdNumber(AsString(Get(items[i], "inspectorId")).value)
    {
      NumberBelowMax(items, i);
    }
  }

  /** Each numbered item's id number is at most the largest one. */
  lemma NumberBelowMax(items: seq<Record>, i: int)
    requires 0 <= i < |items| && IsNumbered(items[i])
    requires IdNumbers(Filter(IsNumbered, items)).Ok?
    ensures |IdNumbers(Filter(IsNumbered, items)).value| > 0
    ensures AsString(Get(items[i], "inspectorId")).Some?
    ensures IdNumber(AsString(Get(items[i], "inspectorId")).value) <= Max(IdNumbers(Filter(IsNumbered, items)).value)
  {
    var numbered := Filter(IsNumbered, items);
    FilterMembers(IsNumbered, items);
    assert items[i] in numbered;
    var j :| 0 <= j < |numbered| && numbered[j] == items[i];
    var ns := IdNumbers(numbered).value;
    assert ns[j] <= Max(ns);
  }

  // ---- getAllInspectors ----

  /** The stored properties the listing copies as they are. */
  const CopiedFields: set<string> := {"userId", "inspectorId", "name", "mobileNumber", "municipalCouncil",
    "assignedZone", "registeredDate", "createdAt", "updatedAt"}

  /** The properties the listing computes. */
  const ViewDefaults: set<string> := {"id", "email", "status", "isAssigned"}

  lemma ViewKeysDisjoint()
    ensures CopiedFields !! ViewDefaults
  {
  }

  /** `id`, with the fallbacks in order, and the defaulted properties. */
  function Defaults(item: Record): (e: Record)
    ensures e.Keys <= ViewDefaults
    ensures Get(e, "id") == Or(Or(Get(item, "id"), Get(item, "inspectorId")), Get(item, "userId"))
    ensures Get(e, "email") == Or(Get(item, "email"), Some(Str("")))
    ensures Get(e, "status") == Or(Get(item, "status"), Some(Str("online")))
    ensures Get(e, "isAssigned") == Or(Get(item, "isAssigned"), Some(Bool(false)))
  {
    var e := map["email" := Or(Get(item, "email"), Some(Str(""))).value,
                 "status" := Or(Get(item, "status"), Some(Str("online"))).value,
                 "isAssigned" := Or(Get(item, "isAssigned"), Some(Bool(false))).value];
    SetField(e, "id", Or(Or(Get(item, "id"), Get(item, "inspectorId")), Get(item, "userId")))
  }

  /** The record the listing shows for a stored inspector. */
  function InspectorView(item: Record): (v: Record)
    ensures forall k :: k in CopiedFields ==> Get(v, k) == Get(item, k)
    ensures v.Keys <= CopiedFields + ViewDefaults
    ensures forall k :: k in ViewDefaults ==> Get(v, k) == Get(Defaults(item), k)
  {
    ViewKeysDisjoint();
    Pick(item, CopiedFields) + Defaults(item)
  }

  /** What the listing shows: a missing email as `''`, a missing status as
      `online`, a missing assignment flag as `false`. */
  lemma InspectorViewMeaning(item: Record)
    ensures Get(InspectorView(item), "id") == Or(Or(Get(item, "id"), Get(item, "inspectorId")), Get(item, "userId"))
    ensures Get(InspectorView(item), "email") == if Truthy(Get(item, "email")) then Get(item, "email") else Some(Str(""))
    ensures Get(InspectorView(item), "status") == if Truthy(Get(item, "status")) then Get(item, "status") else Some(Str("online"))
    ensures Get(InspectorView(item), "isAssigned") ==
      if Truthy(Get(item, "isAssigned")) then Get(item, "isAssigned") else Some(Bool(false))
  {
    assert "id" in ViewDefaults && "email" in ViewDefaults && "status" in ViewDefaults && "isAssigned" in ViewDefaults;
  }

  /** The stored password and the user type never reach the listing. */
  lemma ViewHidesPassword(item: Record)
    ensures "password" !in InspectorView(item) && "userType" !in InspectorView(item)
  {
    assert "password" !in CopiedFields + ViewDefaults;
    assert "userType" !in CopiedFields + ViewDefaults;
  }

  function Inspectors(items: seq<Record>): seq<Record>
  {
    Map(InspectorView, Filter(IsInspector, items))
  }

  /** `getAllInspectors`: the inspectors' views, newest first, with a falsy
      `createdAt` counted as 0, when every inspector has a comparable key. */
  method GetAllInspectors(scan: Result<seq<Record>>) returns (r: Result<seq<Record>>)
    ensures scan.Err? <==> r.Err?
    ensures r.Err? ==> r.message == FetchFailed
    ensures r.Ok? ==> multiset(r.value) == multiset(Inspectors(scan.value))
    ensures r.Ok? && AllKeyed(CreatedAtOrZero, Inspectors(scan.value)) ==>
              AllKeyed(CreatedAtOrZero, r.value) && NewestFirst(CreatedAtOrZero, r.value)
  {
    if scan.Err? {
      return Err(FetchFailed);
    }
    var inspectors := Inspectors(scan.value);
    var sorted := SortedNewestFirst(inspectors, CreatedAtOrZero);
    r := Ok(sorted);
  }

  // ---- searchInspectors, getInspectorsByStatus ----

  /** The search callback of `searchInspectors`. */
  function Matches(term: string): Record -> Result<bool>
  {
    StaffMatches(term, "inspectorId")
  }

  /** `searchInspectors`: fetch, then search. `listed` is the fetched list. */
  method SearchInspectors(scan: Result<seq<Record>>, term: string) returns (r: Result<seq<Record>>, ghost listed: seq<Record>)
    ensures scan.Err? ==> r == Err(SearchFailed)
    ensures scan.Ok? ==> multiset(listed) == multiset(Inspectors(scan.value))
    ensures scan.Ok? && AllKeyed(CreatedAtOrZero, Inspectors(scan.value)) ==>
              AllKeyed(CreatedAtOrZero, listed) && NewestFirst(CreatedAtOrZero, listed)
    ensures scan.Ok? ==> r == Rethrow(Search(listed, term, Matches(term)), SearchFailed)
  {
    var all := GetAllInspectors(scan);
    if all.Err? {
      return Err(SearchFailed), [];
    }
    listed := all.value;
    r := Rethrow(Search(all.value, term, Matches(term)), SearchFailed);
  }

  /** `getInspectorsByStatus`: the fetched inspectors whose status is exactly
      the argument, in listing order. */
  method GetInspectorsByStatus(scan: Result<seq<Record>>, status: Option<Value>) returns (r: Result<seq<Record>>, ghost listed: seq<Record>)
    ensures scan.Err? ==> r == Err(ByStatusFailed)
    ensures scan.Ok? ==> multiset(listed) == multiset(Inspectors(scan.value))
    ensures scan.Ok? && AllKeyed(CreatedAtOrZero, Inspectors(scan.value)) ==>
              AllKeyed(CreatedAtOrZero, listed) && NewestFirst(CreatedAtOrZero, listed)
    ensures scan.Ok? ==> r == Ok(Filter(StatusIs(status), listed))
  {
    var all := GetAllInspectors(scan);
    if all.Err? {
      return Err(ByStatusFailed), [];
    }
    listed := all.value;
    r := Ok(Filter(StatusIs(status), all.value));
  }

  // ---- getInspectorById ----

  /** `getInspectorById`: the view of the stored inspector, or `null` when
      there is none or the read fails. */
  function GetInspectorById(table: Table, id: Option<Value>, failure: Option<string>): (r: Option<Record>)
    reads table
    ensures r.Some? <==> failure.None? && KeyOf(UserKey(id), table.keyName).Some? && KeyOf(UserKey(id), table.keyName).value in table.items
    ensures r.Some? ==> r.value == InspectorView(table.items[KeyOf(UserKey(id), table.keyName).value])
  {
    match table.GetItem(UserKey(id), failure)
    case Err(_) => None
    case Ok(None) => None
    case Ok(Some(item)) => Some(InspectorView(item))
  }

  // ---- addInspector ----

  /** The properties `addInspector` takes from the caller's data as they are. */
  const SuppliedFields: set<string> := {"name", "email", "mobileNumber", "password"}

  /** The properties it sets itself or defaults. */
  const SetFields: set<string> := {"userId", "id", "inspectorId", "userType", "status", "municipalCouncil",
    "assignedZone", "isAssigned", "createdAt", "updatedAt"}

  lemma NewKeysDisjoint()
    ensures SuppliedFields !! SetFields
  {
  }

  /** `x || undefined` */
  function OrUndefined(v: Option<Value>): (r: Option<Value>)
    ensures r == if Truthy(v) then v else None
  {
    if Truthy(v) then v else None
  }

  /** The properties `addInspector` sets itself or defaults. */
  function NewFields(data: Record, inspectorId: Value, now: int): (e: Record)
    ensures e.Keys <= SetFields
  {
    var e := map["userId" := inspectorId, "id" := inspectorId, "inspectorId" := inspectorId,
                 "userType" := Str("inspector"),
                 "status" := Or(Get(data, "status"), Some(Str("offline"))).value,
                 "isAssigned" := Or(Get(data, "isAssigned"), Some(Bool(false))).value,
                 "createdAt" := Num(now), "updatedAt" := Num(now)];
    var e := SetField(e, "municipalCouncil", OrUndefined(Get(data, "municipalCouncil")));
    SetField(e, "assignedZone", OrUndefined(Get(data, "assignedZone")))
  }

  /** The id under all three names. */
  lemma NewFieldsIds(data: Record, inspectorId: Value, now: int)
    ensures var e := NewFields(data, inspectorId, now);
      && Get(e, "userId") == Some(inspectorId)
      && Get(e, "id") == Some(inspectorId)
      && Get(e, "inspectorId") == Some(inspectorId)
  {
  }

  lemma NewFieldsType(data: Record, inspectorId: Value, now: int)
    ensures Get(NewFields(data, inspectorId, now), "userType") == Some(Str("inspector"))
  {
  }

  /** The status and the assignment flag default; a falsy council or zone is
      left out. */
  lemma NewFieldsDefaults(data: Record, inspectorId: Value, now: int)
    ensures var e := NewFields(data, inspectorId, now);
      && Get(e, "status") == Or(Get(data, "status"), Some(Str("offline")))
      && Get(e, "isAssigned") == Or(Get(data, "isAssigned"), Some(Bool(false)))
      && Get(e, "municipalCouncil") == OrUndefined(Get(data, "municipalCouncil"))
      && Get(e, "assignedZone") == OrUndefined(Get(data, "assignedZone"))
  {
  }

  /** Both timestamps are the time of the call. */
  lemma NewFieldsStamps(data: Record, inspectorId: Value, now: int)
    ensures var e := NewFields(data, inspectorId, now);
      Get(e, "createdAt") == Get(e, "updatedAt") == Some(Num(now))
  {
  }

  /** The stored record of a new inspector with the given id. */
  function NewInspector(data: Record, inspectorId: Value, now: int): (r: Record)
    ensures forall k :: k in SuppliedFields ==> Get(r, k) == Get(data, k)
    ensures forall k :: k in SetFields ==> Get(r, k) == Get(NewFields(data, inspectorId, now), k)
    ensures r.Keys <= SuppliedFields + SetFields
  {
    NewKeysDisjoint();
    Pick(data, SuppliedFields) + NewFields(data, inspectorId, now)
  }

  /** The new record is keyed by its id, marked as an inspector, offline
      unless the caller says otherwise, and unassigned unless the caller says
      otherwise; a falsy council or zone is left out. */
  lemma NewInspectorMeaning(data: Record, inspectorId: Value, now: int)
    ensures var r := NewInspector(data, inspectorId, now);
      && Get(r, "userId") == Get(r, "id") == Get(r, "inspectorId") == Some(inspectorId)
      && Get(r, "userType") == Some(Str("inspector"))
      && Get(r, "password") == Get(data, "password")
      && Get(r, "status") == (if Truthy(Get(data, "status")) then Get(data, "status") else Some(Str("offline")))
      && Get(r, "isAssigned") == (if Truthy(Get(data, "isAssigned")) then Get(data, "isAssigned") else Some(Bool(false)))
      && (Truthy(Get(data, "assignedZone")) <==> "assignedZone" in r)
      && Get(r, "createdAt") == Get(r, "updatedAt") == Some(Num(now))
  {
    NewFieldsIds(data, inspectorId, now);
    NewFieldsType(data, inspectorId, now);
    NewFieldsDefaults(data, inspectorId, now);
    NewFieldsStamps(data, inspectorId, now);
    assert "userId" in SetFields && "id" in SetFields && "inspectorId" in SetFields && "userType" in SetFields;
    assert "status" in SetFields && "isAssigned" in SetFields && "assignedZone" in SetFields;
    assert "createdAt" in SetFields && "updatedAt" in SetFields && "password" in SuppliedFields;
  }

  /** `inspectorData.inspectorId || await generateInspectorId()`: the caller's
      id wins; the table is scanned only when there is none. */
  function AssignedId(data: Record, scan: Result<seq<Record>>): (r: Result<Value>)
    ensures Truthy(Get(data, "inspectorId")) ==> r == Ok(data["inspectorId"])
  {
    if Truthy(Get(data, "inspectorId")) then Ok(data["inspectorId"])
    else match scan
      case Err(m) => Err(m)
      case Ok(items) =>
        match GenerateInspectorId(items)
        case Err(m) => Err(m)
        case Ok(id) => Ok(Str(id))
  }

  /** `addInspector`: store the new inspector under its id. */
  method AddInspector(table: Table, data: Record, scan: Result<seq<Record>>, now: int, failure: Option<string>)
    returns (r: Result<Record>)
    requires table.Valid() && table.keyName == KeyName
    modifies table
    ensures table.Valid()
    ensures r.Ok? <==> (AssignedId(data, scan).Ok? && failure.None? &&
                        ItemKey(NewInspector(data, AssignedId(data, scan).value, now), KeyName).Some?)
    ensures r.Err? ==> r.message == AddFailed && table.items == old(table.items)
    ensures r.Ok? ==>
      table.items == Put(old(table.items), KeyName, NewInspector(data, AssignedId(data, scan).value, now)) &&
      r.value == Success("Inspector added successfully")["inspectorId" := AssignedId(data, scan).value]
  {
    var inspectorId := AssignedId(data, scan);
    if inspectorId.Err? {
      return Err(AddFailed);
    }
    var put := table.PutItem(NewInspector(data, inspectorId.value, now), failure);
    if put.Err? {
      return Err(AddFailed);
    }
    r := Ok(Success("Inspector added successfully")["inspectorId" := inspectorId.value]);
  }

  // ---- updateInspector, updateInspectorStatus, assignZoneToInspector, deleteInspector ----

  /** The `updateInspector` payload. */
  function UpdatePayload(updates: Record, now: int): Record
  {
    Stamped(WithoutUnderscorePassword(updates), now)
  }

  /** The payload drops `_password` and adds `updatedAt`; every other property,
      including one named `password`, is sent as given. */
  lemma UpdatePayloadMeaning(updates: Record, now: int)
    ensures Get(UpdatePayload(updates, now), "_password") == None
    ensures Get(UpdatePayload(updates, now), "updatedAt") == Some(Num(now))
    ensures forall k :: k != "_password" && k != "updatedAt" ==> Get(UpdatePayload(updates, now), k) == Get(updates, k)
    ensures Get(UpdatePayload(updates, now), "password") == Get(updates, "password")
  {
  }

  /** `{ status, updatedAt }` */
  function StatusPayload(status: Option<Value>, now: int): (p: Record)
    ensures p.Keys <= {"status", "updatedAt"}
    ensures Get(p, "status") == status && Get(p, "updatedAt") == Some(Num(now))
  {
    Stamped(SetField(map[], "status", status), now)
  }

  /** `{ assignedZone, municipalCouncil, isAssigned: true, updatedAt }` */
  function AssignPayload(zoneId: Option<Value>, council: Option<Value>, now: int): (p: Record)
    ensures p.Keys <= {"assignedZone", "municipalCouncil", "isAssigned", "updatedAt"}
    ensures Get(p, "assignedZone") == zoneId && Get(p, "municipalCouncil") == council
    ensures Get(p, "isAssigned") == Some(Bool(true)) && Get(p, "updatedAt") == Some(Num(now))
  {
    Stamped(SetField(SetField(map[], "assignedZone", zoneId), "municipalCouncil", council)["isAssigned" := Bool(true)], now)
  }

  /** The update every write operation performs: the payload is merged into
      the record stored under `{ userId: id }`. It answers whether the write
      succeeded; each caller then throws its own message on failure. */
  method UpdateUser(table: Table, id: Option<Value>, payload: Record, failure: Option<string>)
    returns (ok: bool)
    requires table.Valid() && table.keyName == KeyName && payload != map[]
    modifies table
    ensures table.Valid()
    ensures ok <==> failure.None? && KeyOf(UserKey(id), KeyName).Some?
    ensures ok ==> table.items == Upsert(old(table.items), KeyName, KeyOf(UserKey(id), KeyName).value, payload)
    ensures !ok ==> table.items == old(table.items)
  {
    var updated := table.UpdateItem(UserKey(id), payload, failure);
    ok := updated.Ok?;
  }

  /** `updateInspector` */
  method UpdateInspector(table: Table, id: Option<Value>, updates: Record, now: int, failure: Option<string>)
    returns (r: Result<Record>)
    requires table.Valid() && table.keyName == KeyName
    modifies table
    ensures table.Valid()
    ensures r.Ok? <==> failure.None? && KeyOf(UserKey(id), KeyName).Some?
    ensures r.Ok? ==> r.value == Success("Inspector updated successfully")
    ensures r.Ok? ==> table.items == Upsert(old(table.items), KeyName, KeyOf(UserKey(id), KeyName).value, UpdatePayload(updates, now))
    ensures r.Err? ==> r.message == UpdateFailed && table.items == old(table.items)
  {
    var ok := UpdateUser(table, id, UpdatePayload(updates, now), failure);
    r := if ok then Ok(Success("Inspector updated successfully")) else Err(UpdateFailed);
  }

  /** `updateInspectorStatus` changes `status` and `updatedAt` and nothing else. */
  method UpdateInspectorStatus(table: Table, id: Option<Value>, status: Option<Value>, now: int, failure: Option<string>)
    returns (r: Result<Record>)
    requires table.Valid() && table.keyName == KeyName
    modifies table
    ensures table.Valid()
    ensures r.Ok? <==> failure.None? && KeyOf(UserKey(id), KeyName).Some?
    ensures r.Ok? ==> r.value == Success("Status updated to " + TemplateText(status))
    ensures r.Ok? ==> table.items == Upsert(old(table.items), KeyName, KeyOf(UserKey(id), KeyName).value, StatusPayload(status, now))
    ensures r.Err? ==> r.message == StatusFailed && table.items == old(table.items)
  {
    var ok := UpdateUser(table, id, StatusPayload(status, now), failure);
    r := if ok then Ok(Success("Status updated to " + TemplateText(status))) else Err(StatusFailed);
  }

  /** `assignZoneToInspector` */
  method AssignZoneToInspector(table: Table, id: Option<Value>, zoneId: Option<Value>, council: Option<Value>,
                               now: int, failure: Option<string>) returns (r: Result<Record>)
    requires table.Valid() && table.keyName == KeyName
    modifies table
    ensures table.Valid()
    ensures r.Ok? <==> failure.None? && KeyOf(UserKey(id), KeyName).Some?
    ensures r.Ok? ==> r.value == Success("Zone assigned successfully")
    ensures r.Ok? ==> table.items == Upsert(old(table.items), KeyName, KeyOf(UserKey(id), KeyName).value, AssignPayload(zoneId, council, now))
    ensures r.Err? ==> r.message == AssignFailed && table.items == old(table.items)
  {
    var ok := UpdateUser(table, id, AssignPayload(zoneId, council, now), failure);
    r := if ok then Ok(Success("Zone assigned successfully")) else Err(AssignFailed);
  }

  /** An update with a payload changes exactly the payload's attributes of the
      one record, and no other record. */
  lemma UpdateChangesOnlyPayload(items: Items, key: string, payload: Record, a: string)
    requires KeyedBy(items, KeyName) && key in items && a !in payload
    ensures Get(Upsert(items, KeyName, key, payload)[key], a) == Get(items[key], a)
    ensures forall k :: k in items && k != key ==> Upsert(items, KeyName, key, payload)[k] == items[k]
  {
  }

  /** `deleteInspector` */
  method DeleteInspector(table: Table, id: Option<Value>, failure: Option<string>) returns (r: Result<Record>)
    requires table.Valid() && table.keyName == KeyName
    modifies table
    ensures table.Valid()
    ensures r.Ok? <==> failure.None? && KeyOf(UserKey(id), KeyName).Some?
    ensures r.Ok? ==> r.value == Success("Inspector deleted successfully")
    ensures r.Ok? ==> table.items == Remove(old(table.items), KeyName, KeyOf(UserKey(id), KeyName).value)
    ensures r.Err? ==> r.message == DeleteFailed && table.items == old(table.items)
  {
    var deleted := table.DeleteItem(UserKey(id), failure);
    r := if deleted.Ok? then Ok(Success("Inspector deleted successfully")) else Err(DeleteFailed);
  }
}
