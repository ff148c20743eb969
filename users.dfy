/** What the three account services (inspectors, council officers, vehicle
    owners) share: one users table keyed by `userId` and discriminated by
    `userType`, projections of its records, the update payload, and the search
    callbacks, which throw when a searched field is not a string. */
module Users {
  import opened Js
  import opened Strings
  import opened Lists

  const KeyName: string := "userId"

  /** `item.userType === t` */
  predicate OfType(r: Record, t: string)
  {
    Get(r, "userType") == Some(Str(t))
  }

  /** `{ userId: id }`; an `undefined` id leaves the key object empty. */
  function UserKey(id: Option<Value>): (k: Record)
    ensures Get(k, KeyName) == id && k.Keys <= {KeyName}
  {
    SetField(map[], KeyName, id)
  }

  /** The listed properties of r, and no others. */
  function Pick(r: Record, names: set<string>): (p: Record)
    ensures forall k :: Get(p, k) == if k in names then Get(r, k) else None
  {
    map k | k in r && k in names :: r[k]
  }

  /** `{ ...updates, updatedAt: now }` */
  function Stamped(updates: Record, now: int): (p: Record)
    ensures p.Keys == updates.Keys + {"updatedAt"} && p != map[]
    ensures Get(p, "updatedAt") == Some(Num(now))
    ensures forall k :: k != "updatedAt" ==> Get(p, k) == Get(updates, k)
  {
    updates["updatedAt" := Num(now)]
  }

  /** `const { _password, ...safeUpdates } = updates`: only the property named
      `_password` is dropped. */
  function WithoutUnderscorePassword(updates: Record): (p: Record)
    ensures Get(p, "_password") == None
    ensures forall k :: k != "_password" ==> Get(p, k) == Get(updates, k)
  {
    updates - {"_password"}
  }

  /** `!searchTerm || searchTerm.trim() === ''` */
  predicate BlankTerm(term: string)
  {
    term == "" || Trim(term) == ""
  }

  lemma BlankTermIff(term: string)
    ensures BlankTerm(term) <==> IsBlank(term)
  {
    TrimEmptyIffBlank(term);
  }

  /** `field.toLowerCase().includes(term.toLowerCase())`, which throws a
      TypeError when the field is not a string. */
  function LowerIncludes(field: Option<Value>, term: string): (r: Result<bool>)
    ensures r.Err? <==> AsString(field).None?
    ensures r.Ok? ==> r.value == Contains(Lower(AsString(field).value), Lower(term))
  {
    match AsString(field)
    case None => Err(TypeErrorMessage)
    case Some(s) => Ok(Contains(Lower(s), Lower(term)))
  }

  /** `field.includes(term)`, case-sensitive. */
  function RawIncludes(field: Option<Value>, term: string): (r: Result<bool>)
    ensures r.Err? <==> AsString(field).None?
    ensures r.Ok? ==> r.value == Contains(AsString(field).value, term)
  {
    match AsString(field)
    case None => Err(TypeErrorMessage)
    case Some(s) => Ok(Contains(s, term))
  }

  /** `(field && field.toLowerCase().includes(searchLower))`: a falsy field
      does not match and is not read further. */
  function OptionalLowerIncludes(field: Option<Value>, term: string): (r: Result<bool>)
    ensures !Truthy(field) ==> r == Ok(false)
    ensures Truthy(field) ==> r == LowerIncludes(field, term)
  {
    if !Truthy(field) then Ok(false) else LowerIncludes(field, term)
  }

  /** `a || b` inside a callback: b is evaluated, and may throw, only when a
      is false. */
  function OrElse(a: Result<bool>, b: Result<bool>): (r: Result<bool>)
    ensures a == Ok(true) ==> r == Ok(true)
    ensures a.Err? ==> r == a
    ensures a == Ok(false) ==> r == b
  {
    match a
    case Err(m) => Err(m)
    case Ok(x) => if x then Ok(true) else b
  }

  /** The `catch` of every service method: any error is replaced by the
      method's own message. */
  function Rethrow<T>(r: Result<T>, message: string): (r': Result<T>)
    ensures r.Ok? ==> r' == r
    ensures r.Err? ==> r' == Err(message)
  {
    if r.Ok? then r else Err(message)
  }

  /** `{ success: true, message }`, what the write operations resolve to. */
  function Success(message: string): Record
  {
    map["success" := Bool(true), "message" := Str(message)]
  }

  /** `(user) => user.status === status` */
  function StatusIs(status: Option<Value>): Record -> bool
  {
    r => Get(r, "status") == status
  }

  /** The staff search callback: name (lowercased), mobile number (as
      typed), email, then the display id held in idField, the first hit
      deciding. */
  function StaffMatches(term: string, idField: string): Record -> Result<bool>
  {
    r => OrElse(LowerIncludes(Get(r, "name"), term),
         OrElse(RawIncludes(Get(r, "mobileNumber"), term),
         OrElse(OptionalLowerIncludes(Get(r, "email"), term),
                OptionalLowerIncludes(Get(r, idField), term))))
  }

  /** What the staff callback accepts, for a record whose name and mobile
      number are strings. */
  lemma StaffMatchesWhen(r: Record, term: string, idField: string, name: string, mobile: string)
    requires Get(r, "name") == Some(Str(name)) && Get(r, "mobileNumber") == Some(Str(mobile))
    ensures Contains(Lower(name), Lower(term)) ==> StaffMatches(term, idField)(r) == Ok(true)
    ensures Contains(mobile, term) ==> StaffMatches(term, idField)(r) == Ok(true)
    ensures !Truthy(Get(r, "email")) && !Truthy(Get(r, idField)) ==>
      StaffMatches(term, idField)(r) == Ok(Contains(Lower(name), Lower(term)) || Contains(mobile, term))
    ensures Truthy(Get(r, "email")) && !Truthy(Get(r, idField)) && AsString(Get(r, "email")).Some? ==>
      StaffMatches(term, idField)(r) == Ok(Contains(Lower(name), Lower(term)) || Contains(mobile, term) ||
                                           Contains(Lower(AsString(Get(r, "email")).value), Lower(term)))
  {
  }

  /** A name that is not a string makes the callback throw. */
  lemma StaffMatchesThrows(r: Record, term: string, idField: string)
    requires AsString(Get(r, "name")).None?
    ensures StaffMatches(term, idField)(r).Err?
  {
  }

  /** The body of every `search…` operation over an already fetched list: a
      blank term returns the list, any other term filters it with p. */
  function Search(all: seq<Record>, term: string, p: Record -> Result<bool>): Result<seq<Record>>
  {
    if BlankTerm(term) then Ok(all) else FilterOrThrow(p, all)
  }

  /** A blank or whitespace-only term returns the whole list; any other term
      keeps, in order, exactly the records p accepts, and fails exactly when
      p throws on some record. */
  lemma SearchMeaning(all: seq<Record>, term: string, p: Record -> Result<bool>)
    ensures IsBlank(term) ==> Search(all, term, p) == Ok(all)
    ensures !IsBlank(term) ==> (Search(all, term, p).Ok? <==> forall i :: 0 <= i < |all| ==> p(all[i]).Ok?)
    ensures !IsBlank(term) && Search(all, term, p).Ok? ==>
      && Search(all, term, p).value == Filter(Accepts(p), all)
      && IsSubsequence(Search(all, term, p).value, all)
      && forall r :: r in Search(all, term, p).value <==> r in all && p(r) == Ok(true)
  {
    BlankTermIff(term);
    FilterOrThrowMeaning(p, all);
    FilterIsSubsequence(Accepts(p), all);
    FilterMembers(Accepts(p), all);
  }
}
