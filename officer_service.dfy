/** The municipal-council officer service (`mcOfficerService.jsx`): the
    `MCC` display-id allocator, the listing, search and status filters, and
    the writes to the users table. Password hashing is a parameter. */
module OfficerService {
  import opened Js
  import opened Strings
  import opened Lists
  import opened Sorting
  import opened Store
  import opened Users

  const FetchFailed: string := "Failed to fetch MC officers"
  const AddFailed: string := "Failed to add MC officer"
  const UpdateFailed: string := "Failed to update MC officer"
  const DeleteFailed: string := "Failed to delete MC officer"
  const SearchFailed: string := "Failed to search MC officers"
  const ByStatusFailed: string := "Failed to fetch MC officers by status"
  const Prefix: string := "MCC"

  predicate IsOfficer(r: Record)
  {
    OfType(r, "mc_officer")
  }

  // ---- getAllOfficers ----

  /** The stored properties the listing copies as they are. */
  const CopiedFields: set<string> := {"id", "userId", "name", "mobileNumber", "email", "officerId",
    "registeredDate", "createdAt", "updatedAt", "selectedCouncil", "councilId", "scheduleStartDate",
    "scheduleEndDate", "scheduleStartTime", "scheduleEndTime"}

  /** The record the listing shows for a stored officer: the copied
      properties and a status that defaults to `online`. */
  function OfficerView(item: Record): (v: Record)
    ensures forall k :: k in CopiedFields ==> Get(v, k) == Get(item, k)
    ensures Get(v, "status") == if Truthy(Get(item, "status")) then Get(item, "status") else Some(Str("online"))
    ensures v.Keys <= CopiedFields + {"status"}
  {
    assert "status" !in CopiedFields;
    Pick(item, CopiedFields)["status" := Or(Get(item, "status"), Some(Str("online"))).value]
  }

  /** The stored password and user type never reach the listing. */
  lemma OfficerViewHidesPassword(item: Record)
    ensures "password" !in OfficerView(item) && "userType" !in OfficerView(item)
  {
    assert "password" !in CopiedFields + {"status"};
    assert "userType" !in CopiedFields + {"status"};
  }

  function Officers(items: seq<Record>): seq<Record>
  {
    Map(OfficerView, Filter(IsOfficer, items))
  }

  /** `getAllOfficers`: the officers' views, newest first. The comparator
      treats a record without a timestamp as equal to every other, so the
      order is promised only when every officer has one. */
  method GetAllOfficers(scan: Result<seq<Record>>) returns (r: Result<seq<Record>>)
    ensures scan.Err? <==> r.Err?
    ensures r.Err? ==> r.message == FetchFailed
    ensures r.Ok? ==> multiset(r.value) == multiset(Officers(scan.value))
    ensures r.Ok? && AllKeyed(TruthyCreatedAt, Officers(scan.value)) ==>
              AllKeyed(TruthyCreatedAt, r.value) && NewestFirst(TruthyCreatedAt, r.value)
  {
    if scan.Err? {
      return Err(FetchFailed);
    }
    var sorted := SortedNewestFirst(Officers(scan.value), TruthyCreatedAt);
    r := Ok(sorted);
  }

  // ---- generateOfficerId ----

  /** `s.match(/MCC(\d+)/)[1]`: the digits after the leftmost `MCC` that is
      followed by a digit, as many as there are. */
  function McMatch(s: string): (r: Option<string>)
    ensures r.Some? ==> r.value != [] && AllDigits(r.value)
    decreases |s|
  {
    if |s| < 4 then None
    else if s[..3] == Prefix && IsDigit(s[3]) then Some(LeadingDigits(s[3..]))
    else McMatch(s[1..])
  }

  /** The pattern occurs at position i. */
  predicate MatchAt(s: string, i: int)
  {
    0 <= i && i + 4 <= |s| && s[i..i + 3] == Prefix && IsDigit(s[i + 3])
  }

  /** The pattern is unanchored: it is found exactly when it occurs
      somewhere, and then at its first occurrence. */
  lemma McMatchMeaning(s: string)
    ensures McMatch(s).None? <==> forall i :: 0 <= i < |s| ==> !MatchAt(s, i)
    ensures McMatch(s).Some? ==>
      exists i :: MatchAt(s, i) && (forall j :: 0 <= j < i ==> !MatchAt(s, j)) && McMatch(s).value == LeadingDigits(s[i + 3..])
  {
    McMatchNoneIff(s);
    if McMatch(s).Some? {
      McMatchFirst(s);
    }
  }

  /** Dropping the first character moves every occurrence one place left. */
  lemma MatchAtShift(s: string)
    requires s != []
    ensures forall i :: 1 <= i < |s| ==> (MatchAt(s, i) <==> MatchAt(s[1..], i - 1))
  {
    forall i | 1 <= i < |s|
      ensures MatchAt(s, i) <==> MatchAt(s[1..], i - 1)
    {
      if i + 4 <= |s| {
        assert s[i..i + 3] == s[1..][i - 1..i + 2];
      }
    }
  }

  lemma {:induction false} McMatchNoneIff(s: string)
    ensures McMatch(s).None? <==> forall i :: 0 <= i < |s| ==> !MatchAt(s, i)
    decreases |s|
  {
    if |s| >= 4 && !MatchAt(s, 0) {
      McMatchNoneIff(s[1..]);
      MatchAtShift(s);
      if McMatch(s).Some? {
        var j :| 0 <= j < |s[1..]| && MatchAt(s[1..], j);
        assert MatchAt(s, j + 1);
      }
    }
  }

  lemma {:induction false} McMatchFirst(s: string)
    requires McMatch(s).Some?
    ensures exists i :: MatchAt(s, i) && (forall j :: 0 <= j < i ==> !MatchAt(s, j)) && McMatch(s).value == LeadingDigits(s[i + 3..])
    decreases |s|
  {
    if MatchAt(s, 0) {
      assert McMatch(s).value == LeadingDigits(s[3..]);
    } else {
      McMatchFirst(s[1..]);
      MatchAtShift(s);
      var i :| MatchAt(s[1..], i) && (forall j :: 0 <= j < i ==> !MatchAt(s[1..], j)) &&
        McMatch(s[1..]).value == LeadingDigits(s[1..][i + 3..]);
      assert s[1..][i + 3..] == s[i + 4..];
      assert MatchAt(s, i + 1);
    }
  }

  /** An id of the form the allocator produces reads back as its digits. */
  lemma {:induction false} McMatchOfId(ds: string)
    requires ds != [] && AllDigits(ds)
    ensures McMatch(Prefix + ds) == Some(ds)
  {
    var s := Prefix + ds;
    assert s[..3] == Prefix && s[3..] == ds;
    assert LeadingDigits(ds) == ds by {
      LeadingDigitsOf(ds, "");
      assert ds + "" == ds;
    }
  }

  /** The suffix number an officer contributes: none when its `officerId` is
      falsy or does not match; a TypeError when it is truthy but not a
      string. */
  function Suffix(officer: Record): Result<Option<nat>>
  {
    if !Truthy(Get(officer, "officerId")) then Ok(None)
    else match AsString(Get(officer, "officerId"))
      case None => Err(TypeErrorMessage)
      case Some(s) =>
        match McMatch(s)
        case None => Ok(None)
        case Some(ds) => Ok(Some(DigitsValue(ds)))
  }

  /** One turn of the `forEach`: `maxNumber` rises to a larger matched
      suffix. */
  function Step(maxNumber: nat, officer: Record): Result<nat>
  {
    match Suffix(officer)
    case Err(e) => Err(e)
    case Ok(None) => Ok(maxNumber)
    case Ok(Some(n)) => Ok(if n > maxNumber then n else maxNumber)
  }

  /** The `forEach` over the officers, from `maxNumber = 0`. */
  function MaxSuffix(officers: seq<Record>): Result<nat>
    decreases |officers|
  {
    if officers == [] then Ok(0)
    else match MaxSuffix(officers[..|officers| - 1])
      case Err(m) => Err(m)
      case Ok(m) => Step(m, officers[|officers| - 1])
  }

  lemma MaxSuffixSnoc(officers: seq<Record>, i: nat)
    requires i < |officers|
    ensures MaxSuffix(officers[..i + 1]) ==
      match MaxSuffix(officers[..i]) case Err(e) => Err(e) case Ok(m) => Step(m, officers[i])
  {
    assert officers[..i + 1][..i] == officers[..i];
  }

  /** The loop fails exactly when some officer's id is not a string; otherwise
      it finds the largest matched suffix, or 0. This does not depend on the
      order of the list. */
  lemma {:induction false} MaxSuffixMeaning(officers: seq<Record>)
    ensures MaxSuffix(officers).Ok? <==> forall i :: 0 <= i < |officers| ==> Suffix(officers[i]).Ok?
    ensures MaxSuffix(officers).Ok? ==>
      (forall i :: 0 <= i < |officers| && Suffix(officers[i]).value.Some? ==>
         Suffix(officers[i]).value.value <= MaxSuffix(officers).value) &&
      (MaxSuffix(officers).value == 0 ||
         exists i :: 0 <= i < |officers| && Suffix(officers[i]) == Ok(Some(MaxSuffix(officers).value)))
    decreases |officers|
  {
    if officers != [] {
      var init := officers[..|officers| - 1];
      MaxSuffixMeaning(init);
      assert forall i :: 0 <= i < |init| ==> init[i] == officers[i];
    }
  }

  /** `` `MCC${String(n).padStart(3, '0')}` `` */
  function NextId(maxNumber: nat): string
  {
    Prefix + PadStart(NatToString(maxNumber + 1), 3, '0')
  }

  /** `` `MCC${Date.now().toString().slice(-6)}` ``: the last six digits of
      the clock. */
  function FallbackId(now: nat): (id: string)
    ensures 4 <= |id| <= 9 && id[..3] == Prefix
  {
    var t := NatToString(now);
    Prefix + (if |t| <= 6 then t else t[|t| - 6..])
  }

  /** The id `generateOfficerId` returns for a listing. */
  function OfficerIdFor(listed: Result<seq<Record>>, now: nat): string
  {
    if listed.Err? then FallbackId(now)
    else match MaxSuffix(listed.value)
      case Err(_) => FallbackId(now)
      case Ok(m) => NextId(m)
  }

  /** `generateOfficerId`: fetch the officers and scan them for the largest
      suffix. Any error falls back to a clock-based id. `listed` is the
      fetched list. */
  method GenerateOfficerId(scan: Result<seq<Record>>, now: nat) returns (id: string, ghost listed: Result<seq<Record>>)
    ensures scan.Err? <==> listed.Err?
    ensures listed.Ok? ==> multiset(listed.value) == multiset(Officers(scan.value))
    ensures id == OfficerIdFor(listed, now)
  {
    var all := GetAllOfficers(scan);
    listed := all;
    if all.Err? {
      return FallbackId(now), listed;
    }
    var officers := all.value;
    var maxNumber := 0;
    var i := 0;
    while i < |officers|
      invariant 0 <= i <= |officers|
      invariant MaxSuffix(officers[..i]) == Ok(maxNumber)
    {
      MaxSuffixSnoc(officers, i);
      var officer := officers[i];
      ghost var before := maxNumber;
      if Truthy(Get(officer, "officerId")) {
        match AsString(Get(officer, "officerId"))
        case None =>
          MaxSuffixErrExtends(officers, i + 1);
          return FallbackId(now), listed;
        case Some(s) =>
          var m := McMatch(s);
          if m.Some? {
            var num := DigitsValue(m.value);
            if num > maxNumber {
              maxNumber := num;
            }
          }
      }
      assert Step(before, officer) == Ok(maxNumber);
      i := i + 1;
    }
    assert officers[..i] == officers;
    id := NextId(maxNumber);
  }

  /** Once the loop would fail on a prefix it fails on the whole list. */
  lemma {:induction false} MaxSuffixErrExtends(officers: seq<Record>, k: nat)
    requires k <= |officers| && MaxSuffix(officers[..k]).Err?
    ensures MaxSuffix(officers).Err?
    decreases |officers| - k
  {
    if k < |officers| {
      MaxSuffixSnoc(officers, k);
      MaxSuffixErrExtends(officers, k + 1);
    } else {
      assert officers[..k] == officers;
    }
  }

  /** With no officer id matching `MCC<digits>` the first id is `MCC001`. */
  lemma FirstOfficerId(officers: seq<Record>, now: nat)
    requires forall i :: 0 <= i < |officers| ==> Suffix(officers[i]) == Ok(None)
    ensures OfficerIdFor(Ok(officers), now) == "MCC001"
  {
    MaxSuffixMeaning(officers);
    assert NatToString(1) == "1";
    assert Repeat('0', 2) == "00";
  }

  /** The id for a maximum m reads back, through the same pattern, as m + 1,
      padded to at least three digits and never cut short. */
  lemma NextIdReadsBack(m: nat)
    ensures McMatch(NextId(m)).Some? && DigitsValue(McMatch(NextId(m)).value) == m + 1
    ensures |NextId(m)| >= 6
    ensures NextId(m)[|NextId(m)| - |NatToString(m + 1)|..] == NatToString(m + 1)
  {
    NextIdMatch(m);
    NextIdTail(m);
  }

  lemma NextIdMatch(m: nat)
    ensures McMatch(NextId(m)) == Some(PadStart(NatToString(m + 1), 3, '0'))
    ensures DigitsValue(PadStart(NatToString(m + 1), 3, '0')) == m + 1
  {
    var t := NatToString(m + 1);
    PadStartKeepsValue(t, 3);
    McMatchOfId(PadStart(t, 3, '0'));
    NatToStringRoundTrip(m + 1);
  }

  lemma NextIdTail(m: nat)
    ensures |NextId(m)| >= 6
    ensures NextId(m)[|NextId(m)| - |NatToString(m + 1)|..] == NatToString(m + 1)
  {
    var t := NatToString(m + 1);
    var ds := PadStart(t, 3, '0');
    var id := NextId(m);
    assert id == Prefix + ds;
    assert id[|id| - |t|..] == ds[|ds| - |t|..];
  }

  /** The generated suffix is above every matched suffix in the listing. */
  lemma NextIdIsFresh(officers: seq<Record>, now: nat)
    requires MaxSuffix(officers).Ok?
    ensures var id := OfficerIdFor(Ok(officers), now);
      && McMatch(id).Some?
      && DigitsValue(McMatch(id).value) == MaxSuffix(officers).value + 1
      && forall i :: 0 <= i < |officers| && Suffix(officers[i]).Ok? && Suffix(officers[i]).value.Some? ==>
           Suffix(officers[i]).value.value < DigitsValue(McMatch(id).value)
  {
    NextIdReadsBack(MaxSuffix(officers).value);
    MaxSuffixMeaning(officers);
  }

  // ---- addOfficer ----

  /** `` `OFFICER_${Date.now()}_${random}` `` */
  function RecordId(now: nat, random: string): string
  {
    "OFFICER_" + NatToString(now) + "_" + random
  }

  /** The properties `addOfficer` always writes last. */
  const LastFields: set<string> := {"password", "userType", "status", "createdAt", "updatedAt"}

  /** `{ userId: id, id, officerId, ...officerData, password, userType, status, createdAt, updatedAt }` */
  function NewOfficer(data: Record, id: string, officerId: string, hashed: string, now: int): Record
  {
    var first := map["userId" := Str(id), "id" := Str(id), "officerId" := Str(officerId)];
    (first + data)["password" := Str(hashed)]["userType" := Str("mc_officer")]
      ["status" := Or(Get(data, "status"), Some(Str("online"))).value]
      ["createdAt" := Num(now)]["updatedAt" := Num(now)]
  }

  /** The caller's data is spread over the generated ids, so supplied
      `userId`, `id` or `officerId` values win; the hashed password, the user
      type, the status and both timestamps are always the function's own. */
  lemma NewOfficerMeaning(data: Record, id: string, officerId: string, hashed: string, now: int)
    ensures var r := NewOfficer(data, id, officerId, hashed, now);
      && Get(r, "userId") == (if "userId" in data then Get(data, "userId") else Some(Str(id)))
      && Get(r, "id") == (if "id" in data then Get(data, "id") else Some(Str(id)))
      && Get(r, "officerId") == (if "officerId" in data then Get(data, "officerId") else Some(Str(officerId)))
      && Get(r, "password") == Some(Str(hashed))
      && Get(r, "userType") == Some(Str("mc_officer"))
      && Get(r, "status") == (if Truthy(Get(data, "status")) then Get(data, "status") else Some(Str("online")))
      && Get(r, "createdAt") == Get(r, "updatedAt") == Some(Num(now))
    ensures var r := NewOfficer(data, id, officerId, hashed, now);
      forall k :: k !in LastFields && k !in {"userId", "id", "officerId"} ==> Get(r, k) == Get(data, k)
  {
  }

  /** `addOfficer`: allocate the display id, hash the password and store the
      record under its `userId`; the stored record is returned. `hash` is
      bcrypt, which may throw. */
  method AddOfficer(table: Table, data: Record, scan: Result<seq<Record>>, now: nat, random: string,
                    hash: Option<Value> -> Result<string>, failure: Option<string>)
    returns (r: Result<Record>, ghost listed: Result<seq<Record>>)
    requires table.Valid() && table.keyName == KeyName
    modifies table
    ensures table.Valid()
    ensures scan.Err? <==> listed.Err?
    ensures listed.Ok? ==> multiset(listed.value) == multiset(Officers(scan.value))
    ensures r.Ok? <==> (hash(Get(data, "password")).Ok? && failure.None? &&
      ItemKey(NewOfficer(data, RecordId(now, random), OfficerIdFor(listed, now), hash(Get(data, "password")).value, now), KeyName).Some?)
    ensures r.Ok? ==>
      r.value == NewOfficer(data, RecordId(now, random), OfficerIdFor(listed, now), hash(Get(data, "password")).value, now)
    ensures r.Ok? ==> table.items == Put(old(table.items), KeyName, r.value)
    ensures r.Err? ==> r.message == AddFailed && table.items == old(table.items)
  {
    var id := RecordId(now, random);
    var officerId;
    officerId, listed := GenerateOfficerId(scan, now);
    var hashed := hash(Get(data, "password"));
    if hashed.Err? {
      return Err(AddFailed), listed;
    }
    var officer := NewOfficer(data, id, officerId, hashed.value, now);
    var put := table.PutItem(officer, failure);
    if put.Err? {
      return Err(AddFailed), listed;
    }
    r := Ok(officer);
  }

  // ---- updateOfficer, deleteOfficer ----

  /** `updateOfficer`: merge `updates` without `_password`, stamped with
      `updatedAt`, into the officer's record. */
  method UpdateOfficer(table: Table, id: Option<Value>, updates: Record, now: int, failure: Option<string>)
    returns (r: Result<()>)
    requires table.Valid() && table.keyName == KeyName
    modifies table
    ensures table.Valid()
    ensures r.Ok? <==> failure.None? && KeyOf(UserKey(id), KeyName).Some?
    ensures r.Ok? ==>
      table.items == Upsert(old(table.items), KeyName, KeyOf(UserKey(id), KeyName).value, Stamped(WithoutUnderscorePassword(updates), now))
    ensures r.Err? ==> r.message == UpdateFailed && table.items == old(table.items)
  {
    var updated := table.UpdateItem(UserKey(id), Stamped(WithoutUnderscorePassword(updates), now), failure);
    r := if updated.Ok? then Ok(()) else Err(UpdateFailed);
  }

  /** `deleteOfficer` */
  method DeleteOfficer(table: Table, id: Option<Value>, failure: Option<string>) returns (r: Result<()>)
    requires table.Valid() && table.keyName == KeyName
    modifies table
    ensures table.Valid()
    ensures r.Ok? <==> failure.None? && KeyOf(UserKey(id), KeyName).Some?
    ensures r.Ok? ==> table.items == Remove(old(table.items), KeyName, KeyOf(UserKey(id), KeyName).value)
    ensures r.Err? ==> r.message == DeleteFailed && table.items == old(table.items)
  {
    var deleted := table.DeleteItem(UserKey(id), failure);
    r := if deleted.Ok? then Ok(()) else Err(DeleteFailed);
  }

  // ---- searchOfficers, getOfficersByStatus ----

  /** The search callback of `searchOfficers`. */
  function Matches(term: string): Record -> Result<bool>
  {
    StaffMatches(term, "officerId")
  }

  /** `searchOfficers`: fetch, then search. `listed` is the fetched list. */
  method SearchOfficers(scan: Result<seq<Record>>, term: string) returns (r: Result<seq<Record>>, ghost listed: seq<Record>)
    ensures scan.Err? ==> r == Err(SearchFailed)
    ensures scan.Ok? ==> multiset(listed) == multiset(Officers(scan.value))
    ensures scan.Ok? && AllKeyed(TruthyCreatedAt, Officers(scan.value)) ==>
              AllKeyed(TruthyCreatedAt, listed) && NewestFirst(TruthyCreatedAt, listed)
    ensures scan.Ok? ==> r == Rethrow(Search(listed, term, Matches(term)), SearchFailed)
  {
    var all := GetAllOfficers(scan);
    if all.Err? {
      return Err(SearchFailed), [];
    }
    listed := all.value;
    r := Rethrow(Search(all.value, term, Matches(term)), SearchFailed);
  }

  /** `getOfficersByStatus`: the fetched officers whose status is exactly the
      argument, in listing order. */
  method GetOfficersByStatus(scan: Result<seq<Record>>, status: Option<Value>) returns (r: Result<seq<Record>>, ghost listed: seq<Record>)
    ensures scan.Err? ==> r == Err(ByStatusFailed)
    ensures scan.Ok? ==> multiset(listed) == multiset(Officers(scan.value))
    ensures scan.Ok? && AllKeyed(TruthyCreatedAt, Officers(scan.value)) ==>
              AllKeyed(TruthyCreatedAt, listed) && NewestFirst(TruthyCreatedAt, listed)
    ensures scan.Ok? ==> r == Ok(Filter(StatusIs(status), listed))
  {
    var all := GetAllOfficers(scan);
    if all.Err? {
      return Err(ByStatusFailed), [];
    }
    listed := all.value;
    r := Ok(Filter(StatusIs(status), all.value));
  }
}
