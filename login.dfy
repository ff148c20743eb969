/** The login function (`back-end/lambda/loginFunction.js`): a fixed chain of
    guards from the HTTP request to a status code and a message, with one write
    to the users table on success.

    bcrypt's `compare` and JWT's `sign` are parameters: `compare` may throw (an
    `Err`), `sign` turns the claims into a token. The users table is keyed by
    `email`. */
module Login {
  import opened Js
  import opened Strings
  import Email
  import opened Store

  /** A parsed JSON document: an object, or a single primitive. */
  datatype Json = Object(fields: Record) | Scalar(v: Value)

  /** `event.body`: absent or empty, or a text that either parses to a JSON
      document or does not parse at all. */
  datatype RequestBody = NoBody | Text(parsed: Option<Json>)

  datatype Event = Event(httpMethod: Option<string>, body: RequestBody)

  datatype ResponseBody = Empty | Json(fields: Record)

  datatype Response = Response(statusCode: int, headers: map<string, string>, body: ResponseBody)

  /** The password check `bcrypt.compare(password, storedHash)`. */
  type Compare = (Value, Option<Value>) -> Result<bool>

  /** `jwt.sign(claims, secret, { expiresIn: '24h' })` */
  type Sign = Record -> string

  const RequiredMessage: string := "Email and password are required"
  const FormatMessage: string := "Invalid email format"
  const InvalidCredentialsMessage: string := "Invalid email or password"
  const DeactivatedMessage: string := "Your account has been deactivated. Please contact the administrator."
  const SuccessMessage: string := "Login successful"
  const InternalMessage: string := "Internal server error"
  const JsonSyntaxMessage: string := "Unexpected token in JSON"

  /** The CORS headers every response carries. */
  const Headers: map<string, string> := map[
    "Access-Control-Allow-Origin" := "*",
    "Access-Control-Allow-Headers" := "Content-Type,Authorization",
    "Access-Control-Allow-Methods" := "POST,OPTIONS",
    "Content-Type" := "application/json"]

  function Reply(statusCode: int, message: string): (r: Response)
    ensures r.headers == Headers && r.body == Json(map["message" := Str(message)])
  {
    Response(statusCode, Headers, Json(map["message" := Str(message)]))
  }

  /** The catch block: 500, with the error's message only in development. */
  function ServerError(message: string, development: bool): (r: Response)
    ensures r.statusCode == 500 && r.headers == Headers
    ensures r.body.Json? && Get(r.body.fields, "message") == Some(Str(InternalMessage))
    ensures Get(r.body.fields, "error") == if development then Some(Str(message)) else None
  {
    Response(500, Headers, Json(SetField(map["message" := Str(InternalMessage)], "error",
      if development then Some(Str(message)) else None)))
  }

  /** `const { email, password } = JSON.parse(event.body || '{}')`: the object
      the two fields are read from. Invalid JSON and `null` throw. */
  function ParseBody(b: RequestBody): (r: Result<Record>)
    ensures b == NoBody ==> r == Ok(map[])
    ensures b == Text(None) || b == Text(Some(Scalar(Null))) <==> r.Err?
  {
    match b
    case NoBody => Ok(map[])
    case Text(None) => Err(JsonSyntaxMessage)
    case Text(Some(Object(fields))) => Ok(fields)
    case Text(Some(Scalar(Null))) => Err(TypeErrorMessage)
    case Text(Some(Scalar(_))) => Ok(map[])
  }

  /** The token's claims: the stored record's `{ email, role, name }`. */
  function Claims(user: Record): (c: Record)
    ensures c.Keys <= {"email", "role", "name"}
    ensures forall k :: k in {"email", "role", "name"} ==> Get(c, k) == Get(user, k)
  {
    SetField(SetField(SetField(map[], "email", Get(user, "email")), "role", Get(user, "role")), "name", Get(user, "name"))
  }

  /** The 200 body: the message, the token and three fields of the stored record. */
  function SuccessBody(token: string, user: Record): (b: Record)
    ensures Get(b, "message") == Some(Str(SuccessMessage)) && Get(b, "token") == Some(Str(token))
  {
    SetField(SetField(SetField(map["message" := Str(SuccessMessage), "token" := Str(token)],
      "role", Get(user, "role")), "name", Get(user, "name")), "email", Get(user, "email"))
  }

  /** The body copies the stored record's email, role and name, and holds
      nothing else besides the message and the token. */
  lemma SuccessBodyFields(token: string, user: Record)
    ensures var b := SuccessBody(token, user);
      && Get(b, "email") == Get(user, "email")
      && Get(b, "role") == Get(user, "role")
      && Get(b, "name") == Get(user, "name")
  {
  }

  lemma SuccessBodyKeys(token: string, user: Record)
    ensures SuccessBody(token, user).Keys <= {"message", "token", "email", "role", "name"}
  {
  }

  /** Where the guard chain ends before the final write: with a response, or
      with a verified user whose `lastLogin` is to be written. */
  datatype Decision = Respond(response: Response) | Grant(key: string, user: Record)

  /** The guard chain up to the `lastLogin` update, in the order of the source. */
  function Decide(event: Event, items: Items, getFailure: Option<string>, compare: Compare,
                  development: bool): (d: Decision)
    ensures d.Grant? ==> d.key != "" && d.key in items && items[d.key] == d.user
    ensures d.Respond? ==> d.response.headers == Headers
  {
    if event.httpMethod == Some("OPTIONS") then Respond(Response(200, Headers, Empty))
    else match ParseBody(event.body)
      case Err(m) => Respond(ServerError(m, development))
      case Ok(fields) => CheckFields(fields, items, getFailure, compare, development)
  }

  /** The two field checks on the parsed body: both present and truthy, then
      the email's format. */
  function CheckFields(fields: Record, items: Items, getFailure: Option<string>, compare: Compare,
                       development: bool): (d: Decision)
    ensures d.Grant? ==> d.key != "" && d.key in items && items[d.key] == d.user
    ensures d.Respond? ==> d.response.headers == Headers
  {
    var email, password := Get(fields, "email"), Get(fields, "password");
    if !Truthy(email) || !Truthy(password) then Respond(Reply(400, RequiredMessage))
    else if !Email.Test(email.value) then Respond(Reply(400, FormatMessage))
    else
      Email.TestOnlyStrings(email.value);
      Authenticate(Lower(email.value.s), password.value, items, getFailure, compare, development)
  }

  /** The read of the record stored under the lowercased email, its status,
      and the password check. */
  function Authenticate(key: string, password: Value, items: Items, getFailure: Option<string>,
                        compare: Compare, development: bool): (d: Decision)
    requires key != ""
    ensures d.Grant? ==> d.key == key && key in items && items[key] == d.user
    ensures d.Respond? ==> d.response.headers == Headers
  {
    match Lookup(items, "email", LookupKey(key), getFailure)
    case Err(m) => Respond(ServerError(m, development))
    case Ok(None) => Respond(Reply(401, InvalidCredentialsMessage))
    case Ok(Some(user)) =>
      if Get(user, "status") != Some(Str("ACTIVE")) then Respond(Reply(403, DeactivatedMessage))
      else match compare(password, Get(user, "password"))
        case Err(m) => Respond(ServerError(m, development))
        case Ok(matched) =>
          if !matched then Respond(Reply(401, InvalidCredentialsMessage))
          else Grant(key, user)
  }

  /** What the lookup of a non-empty key gives. */
  lemma LookupOf(items: Items, key: string, getFailure: Option<string>)
    requires key != ""
    ensures Lookup(items, "email", LookupKey(key), getFailure) ==
      if getFailure.Some? then Err(getFailure.value)
      else Ok(if key in items then Some(items[key]) else None)
  {
    assert KeyOf(LookupKey(key), "email") == Some(key);
  }

  /** `{ email: email.toLowerCase() }`, given the lowercased email. */
  function LookupKey(key: string): (r: Record)
    ensures r.Keys == {"email"} && r["email"] == Str(key)
  {
    map["email" := Str(key)]
  }

  /** The handler's response, given the outcome of the `lastLogin` write. */
  function HandlerResponse(event: Event, items: Items, getFailure: Option<string>, compare: Compare,
                           sign: Sign, updateFailure: Option<string>, development: bool): Response
  {
    match Decide(event, items, getFailure, compare, development)
    case Respond(r) => r
    case Grant(_, user) =>
      if updateFailure.Some? then ServerError(updateFailure.value, development)
      else Response(200, Headers, Json(SuccessBody(sign(Claims(user)), user)))
  }

  /** `exports.handler`. The table is read once, and written once at most:
      `lastLogin` of the granted user, and only on the success path. */
  method Handle(table: Table, event: Event, getFailure: Option<string>, compare: Compare, sign: Sign,
                updateFailure: Option<string>, now: int, development: bool) returns (response: Response)
    requires table.Valid() && table.keyName == "email"
    modifies table
    ensures table.Valid()
    ensures response == HandlerResponse(event, old(table.items), getFailure, compare, sign, updateFailure, development)
    ensures var d := Decide(event, old(table.items), getFailure, compare, development);
      if d.Grant? && updateFailure.None? then
        table.items == Upsert(old(table.items), "email", d.key, map["lastLogin" := Num(now)])
      else table.items == old(table.items)
  {
    var d := Decide(event, table.items, getFailure, compare, development);
    match d
    case Respond(r) =>
      response := r;
    case Grant(key, user) =>
      var token := sign(Claims(user));
      var updated := WriteLastLogin(table, key, user, updateFailure, now);
      if updated.Err? {
        return ServerError(updated.message, development);
      }
      response := Response(200, Headers, Json(SuccessBody(token, user)));
  }

  /** `updateItem({ email: user.email }, { lastLogin })` for a user stored
      under its email. */
  method WriteLastLogin(table: Table, key: string, user: Record, updateFailure: Option<string>, now: int)
    returns (r: Result<()>)
    requires table.Valid() && table.keyName == "email"
    requires key != "" && Get(user, "email") == Some(Str(key))
    modifies table
    ensures table.Valid()
    ensures r.Ok? <==> updateFailure.None?
    ensures r.Err? ==> r.message == updateFailure.value
    ensures r.Ok? ==> table.items == Upsert(old(table.items), "email", key, map["lastLogin" := Num(now)])
    ensures r.Err? ==> table.items == old(table.items)
  {
    var userKey := map["email" := user["email"]];
    assert userKey == LookupKey(key);
    assert KeyOf(userKey, "email") == Some(key);
    var updates := map["lastLogin" := Num(now)];
    assert userKey != map[] && updates != map[] by {
      assert "email" in userKey && "lastLogin" in updates;
    }
    r := table.UpdateItem(userKey, updates, updateFailure);
  }

  // ---- properties of the guard chain ----

  /** The request's `email` and `password` fields, when the body parses. */
  predicate Sent(event: Event, email: Option<Value>, password: Option<Value>)
  {
    event.httpMethod != Some("OPTIONS") && ParseBody(event.body).Ok? &&
    Get(ParseBody(event.body).value, "email") == email &&
    Get(ParseBody(event.body).value, "password") == password
  }

  /** A preflight request is answered with 200 and an empty body, before the
      body is looked at. */
  lemma PreflightFirst(event: Event, items: Items, getFailure: Option<string>, compare: Compare,
                       sign: Sign, updateFailure: Option<string>, development: bool)
    requires event.httpMethod == Some("OPTIONS")
    ensures HandlerResponse(event, items, getFailure, compare, sign, updateFailure, development)
         == Response(200, Headers, Empty)
  {
  }

  /** A body that is not JSON, or is `null`, ends in the catch block. */
  lemma UnreadableBody(event: Event, items: Items, getFailure: Option<string>, compare: Compare,
                       sign: Sign, updateFailure: Option<string>, development: bool)
    requires event.httpMethod != Some("OPTIONS")
    requires event.body == Text(None) || event.body == Text(Some(Scalar(Null)))
    ensures HandlerResponse(event, items, getFailure, compare, sign, updateFailure, development).statusCode == 500
  {
  }

  /** A missing or empty field is reported before the email's format is
      checked, and the table is not consulted. */
  lemma MissingField(event: Event, email: Option<Value>, password: Option<Value>, items: Items,
                     getFailure: Option<string>, compare: Compare, sign: Sign,
                     updateFailure: Option<string>, development: bool)
    requires Sent(event, email, password)
    requires !Truthy(email) || !Truthy(password)
    ensures HandlerResponse(event, items, getFailure, compare, sign, updateFailure, development)
         == Reply(400, RequiredMessage)
  {
  }

  /** Both fields present: an email the pattern rejects gives 400 whatever the
      table holds. Which emails those are is `Email.WellFormed`. */
  lemma BadEmailFormat(event: Event, email: Value, password: Value, items: Items,
                       getFailure: Option<string>, compare: Compare, sign: Sign,
                       updateFailure: Option<string>, development: bool)
    requires Sent(event, Some(email), Some(password))
    requires Truthy(Some(email)) && Truthy(Some(password))
    requires !(email.Str? && Email.WellFormed(email.s))
    ensures HandlerResponse(event, items, getFailure, compare, sign, updateFailure, development)
         == Reply(400, FormatMessage)
  {
    if email.Str? {
      Email.ScanIffMatches(email.s);
      Email.MatchesIffWellFormed(email.s);
    } else {
      Email.TestOnlyStrings(email);
    }
  }

  /** The request as far as it gets past the format check: a well-formed email
      and a non-empty password. */
  predicate Credentials(event: Event, email: string, password: Value)
  {
    Sent(event, Some(Str(email)), Some(password)) && Truthy(Some(password)) && Email.WellFormed(email)
  }

  lemma CredentialsPassFormat(email: string)
    requires Email.WellFormed(email)
    ensures Email.Test(Str(email)) && email != ""
  {
    Email.MatchesIffWellFormed(email);
    Email.ScanIffMatches(email);
  }

  /** A request with credentials reaches the table read under the lowercased
      email. */
  lemma CredentialsReachTable(event: Event, email: string, password: Value, items: Items,
                              getFailure: Option<string>, compare: Compare, development: bool)
    requires Credentials(event, email, password)
    ensures Lower(email) != ""
    ensures Decide(event, items, getFailure, compare, development)
         == Authenticate(Lower(email), password, items, getFailure, compare, development)
  {
    CredentialsPassFormat(email);
  }

  /** The table is read under the lowercased email; no record gives 401. */
  lemma UnknownUser(event: Event, email: string, password: Value, items: Items, compare: Compare,
                    sign: Sign, updateFailure: Option<string>, development: bool)
    requires Credentials(event, email, password)
    requires Lower(email) !in items
    ensures HandlerResponse(event, items, None, compare, sign, updateFailure, development)
         == Reply(401, InvalidCredentialsMessage)
  {
    CredentialsReachTable(event, email, password, items, None, compare, development);
    LookupOf(items, Lower(email), None);
  }

  /** A failed read of the table ends in the catch block. */
  lemma LookupFails(event: Event, email: string, password: Value, items: Items, m: string,
                    compare: Compare, sign: Sign, updateFailure: Option<string>, development: bool)
    requires Credentials(event, email, password)
    ensures HandlerResponse(event, items, Some(m), compare, sign, updateFailure, development)
         == ServerError(m, development)
  {
    CredentialsReachTable(event, email, password, items, Some(m), compare, development);
    LookupOf(items, Lower(email), Some(m));
  }

  /** An account whose status is not exactly 'ACTIVE' is refused with 403
      before the password is compared: the answer is the same for every
      password check. */
  lemma InactiveBeforePassword(event: Event, email: string, password: Value, items: Items,
                               compare1: Compare, compare2: Compare, sign: Sign,
                               updateFailure: Option<string>, development: bool)
    requires Credentials(event, email, password)
    requires Lower(email) in items && Get(items[Lower(email)], "status") != Some(Str("ACTIVE"))
    ensures HandlerResponse(event, items, None, compare1, sign, updateFailure, development)
         == HandlerResponse(event, items, None, compare2, sign, updateFailure, development)
         == Reply(403, DeactivatedMessage)
  {
    CredentialsReachTable(event, email, password, items, None, compare1, development);
    CredentialsReachTable(event, email, password, items, None, compare2, development);
    LookupOf(items, Lower(email), None);
  }

  /** A wrong password for an active account is answered exactly like an
      unknown email: same status, headers and body. */
  lemma WrongPasswordLikeUnknownUser(event: Event, email: string, password: Value, items: Items,
                                     compare: Compare, sign: Sign, updateFailure: Option<string>,
                                     development: bool)
    requires Credentials(event, email, password)
    requires Lower(email) in items
    requires Get(items[Lower(email)], "status") == Some(Str("ACTIVE"))
    requires compare(password, Get(items[Lower(email)], "password")) == Ok(false)
    ensures HandlerResponse(event, items, None, compare, sign, updateFailure, development)
         == HandlerResponse(event, items - {Lower(email)}, None, compare, sign, updateFailure, development)
         == Reply(401, InvalidCredentialsMessage)
  {
    CredentialsReachTable(event, email, password, items, None, compare, development);
    CredentialsReachTable(event, email, password, items - {Lower(email)}, None, compare, development);
    LookupOf(items, Lower(email), None);
    LookupOf(items - {Lower(email)}, Lower(email), None);
  }

  /** A correct password for an active account: 200, a token signed over the
      stored record's email, role and name, and those three fields from the
      stored record; `lastLogin` is written to that record. In a table keyed
      by email, the email returned is the lowercased one that was sent. */
  lemma Success(event: Event, email: string, password: Value, items: Items, compare: Compare,
                sign: Sign, development: bool)
    requires KeyedBy(items, "email")
    requires Credentials(event, email, password)
    requires Lower(email) in items
    requires Get(items[Lower(email)], "status") == Some(Str("ACTIVE"))
    requires compare(password, Get(items[Lower(email)], "password")) == Ok(true)
    ensures var user := items[Lower(email)];
      && Decide(event, items, None, compare, development) == Grant(Lower(email), user)
      && HandlerResponse(event, items, None, compare, sign, None, development)
         == Response(200, Headers, Json(SuccessBody(sign(Claims(user)), user)))
      && Get(Claims(user), "email") == Some(Str(Lower(email)))
      && Get(SuccessBody(sign(Claims(user)), user), "email") == Some(Str(Lower(email)))
  {
    CredentialsReachTable(event, email, password, items, None, compare, development);
    LookupOf(items, Lower(email), None);
    SuccessBodyFields(sign(Claims(items[Lower(email)])), items[Lower(email)]);
  }

  /** A failed `lastLogin` write turns a successful login into a 500. */
  lemma WriteFails(event: Event, items: Items, getFailure: Option<string>, compare: Compare,
                   sign: Sign, m: string, development: bool)
    requires Decide(event, items, getFailure, compare, development).Grant?
    ensures HandlerResponse(event, items, getFailure, compare, sign, Some(m), development)
         == ServerError(m, development)
  {
  }

  /** The `lastLogin` write changes that one attribute of that one record. */
  lemma WriteTouchesOnlyLastLogin(items: Items, key: string, now: int)
    requires KeyedBy(items, "email") && key in items
    ensures var after := Upsert(items, "email", key, map["lastLogin" := Num(now)]);
      && after.Keys == items.Keys
      && Get(after[key], "lastLogin") == Some(Num(now))
      && (forall a :: a != "lastLogin" ==> Get(after[key], a) == Get(items[key], a))
      && (forall k :: k in items && k != key ==> after[k] == items[k])
  {
  }

  /** Every response carries the same CORS headers. */
  lemma SameHeaders(event: Event, items: Items, getFailure: Option<string>, compare: Compare,
                    sign: Sign, updateFailure: Option<string>, development: bool)
    ensures HandlerResponse(event, items, getFailure, compare, sign, updateFailure, development).headers == Headers
  {
  }
}
