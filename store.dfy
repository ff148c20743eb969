/** The users table the portal and the login function read and write, behind
    the `getItem`, `putItem`, `updateItem` and `deleteItem` calls of the
    DynamoDB client.

    Each item is stored under the string value of its key attribute (`userId`
    for the portal's users table, `email` for the login function's table).
    Every call takes a `failure` argument: `Some(m)` when the request fails on
    the way (network, permissions, a server error) with message m. */
module Store {
  import opened Js

  type Items = map<string, Record>

  const KeyEmptyMessage: string := "Key is required and cannot be empty"
  const UpdatesEmptyMessage: string := "Updates object is required and cannot be empty"
  const KeySchemaMessage: string := "The provided key element does not match the schema"

  function MissingKeyMessage(keyName: string): string
  {
    "One or more parameter values were invalid: Missing the key " + keyName + " in the item"
  }

  /** Every item holds its own key under the key attribute. */
  predicate KeyedBy(items: Items, keyName: string)
  {
    forall k :: k in items ==> Get(items[k], keyName) == Some(Str(k))
  }

  /** The key a `Key` object denotes: it must name exactly the key attribute,
      with a non-empty string. */
  function KeyOf(key: Record, keyName: string): (k: Option<string>)
    ensures k.Some? <==> key.Keys == {keyName} && key[keyName].Str? && key[keyName].s != ""
    ensures k.Some? ==> key == map[keyName := Str(k.value)]
  {
    if key.Keys == {keyName} && key[keyName].Str? && key[keyName].s != "" then
      assert key == map[keyName := key[keyName]];
      Some(key[keyName].s)
    else None
  }

  /** The key an item to be written carries, if it carries one. */
  function ItemKey(item: Record, keyName: string): (k: Option<string>)
    ensures k.Some? <==> Get(item, keyName).Some? && item[keyName].Str? && item[keyName].s != ""
    ensures k.Some? ==> Get(item, keyName) == Some(Str(k.value))
  {
    match Get(item, keyName)
    case Some(Str(s)) => if s != "" then Some(s) else None
    case _ => None
  }

  /** `getItem`: the item stored under the key, or `None`. */
  function Lookup(items: Items, keyName: string, key: Record, failure: Option<string>): (r: Result<Option<Record>>)
    ensures failure.Some? ==> r == Err(failure.value)
    ensures failure.None? ==> (r.Ok? <==> KeyOf(key, keyName).Some?)
    ensures r.Ok? ==> (r.value.Some? <==> KeyOf(key, keyName).value in items)
    ensures r.Ok? && r.value.Some? && KeyedBy(items, keyName) ==> Get(r.value.value, keyName) == Get(key, keyName)
  {
    if failure.Some? then Err(failure.value)
    else match KeyOf(key, keyName)
      case None => Err(KeySchemaMessage)
      case Some(k) => Ok(if k in items then Some(items[k]) else None)
  }

  /** `putItem`: the item replaces whatever was stored under its key. */
  function Put(items: Items, keyName: string, item: Record): (r: Items)
    requires ItemKey(item, keyName).Some?
    ensures r.Keys == items.Keys + {ItemKey(item, keyName).value}
    ensures Lookup(r, keyName, map[keyName := Str(ItemKey(item, keyName).value)], None) == Ok(Some(item))
    ensures forall k :: k in items && k != ItemKey(item, keyName).value ==> r[k] == items[k]
    ensures KeyedBy(items, keyName) ==> KeyedBy(r, keyName)
  {
    items[ItemKey(item, keyName).value := item]
  }

  /** `updateItem` with `SET` of every attribute of `updates`: the attributes
      are written over the stored item, and an absent item is created from its
      key. The key attribute itself is never overwritten. */
  function Upsert(items: Items, keyName: string, k: string, updates: Record): (r: Items)
    ensures r.Keys == items.Keys + {k}
    ensures forall a :: Get(r[k], a) == (
              if a == keyName then Some(Str(k))
              else if a in updates then Some(updates[a])
              else if k in items then Get(items[k], a)
              else None)
    ensures forall k' :: k' in items && k' != k ==> r[k'] == items[k']
    ensures KeyedBy(items, keyName) ==> KeyedBy(r, keyName)
  {
    var base := if k in items then items[k] else map[];
    items[k := (base + updates)[keyName := Str(k)]]
  }

  /** `deleteItem`: nothing is stored under the key afterwards; deleting an
      absent item is not an error. */
  function Remove(items: Items, keyName: string, k: string): (r: Items)
    ensures r.Keys == items.Keys - {k}
    ensures forall k' :: k' in r ==> r[k'] == items[k']
    ensures KeyedBy(items, keyName) ==> KeyedBy(r, keyName)
  {
    items - {k}
  }

  class Table {
    const keyName: string
    var items: Items

    predicate Valid()
      reads this
    {
      KeyedBy(items, keyName)
    }

    constructor (keyName: string)
      ensures this.keyName == keyName && items == map[] && Valid()
    {
      this.keyName := keyName;
      items := map[];
    }

    /** `getItem(table, key)` */
    function GetItem(key: Record, failure: Option<string>): (r: Result<Option<Record>>)
      reads this
      ensures r == Lookup(items, keyName, key, failure)
    {
      Lookup(items, keyName, key, failure)
    }

    /** `putItem(table, item)`: fails on a failed request or an item without
      its key, and changes nothing then. */
    method PutItem(item: Record, failure: Option<string>) returns (r: Result<()>)
      requires Valid()
      modifies this
      ensures Valid()
      ensures r.Ok? <==> failure.None? && ItemKey(item, keyName).Some?
      ensures r.Err? ==> r.message == if failure.Some? then failure.value else MissingKeyMessage(keyName)
      ensures r.Ok? ==> items == Put(old(items), keyName, item)
      ensures r.Err? ==> items == old(items)
    {
      if failure.Some? {
        return Err(failure.value);
      }
      if ItemKey(item, keyName).None? {
        return Err(MissingKeyMessage(keyName));
      }
      items := Put(items, keyName, item);
      r := Ok(());
    }

    /** `updateItem(table, key, updates)`: the client refuses an empty key or
      empty updates before sending anything; the table refuses a key of the
      wrong shape. */
    method UpdateItem(key: Record, updates: Record, failure: Option<string>) returns (r: Result<()>)
      requires Valid()
      modifies this
      ensures Valid()
      ensures key == map[] ==> r == Err(KeyEmptyMessage)
      ensures key != map[] && updates == map[] ==> r == Err(UpdatesEmptyMessage)
      ensures r.Ok? <==> key != map[] && updates != map[] && failure.None? && KeyOf(key, keyName).Some?
      ensures key != map[] && updates != map[] && failure.Some? ==> r == Err(failure.value)
      ensures r.Ok? ==> items == Upsert(old(items), keyName, KeyOf(key, keyName).value, updates)
      ensures r.Err? ==> items == old(items)
    {
      if key == map[] {
        return Err(KeyEmptyMessage);
      }
      if updates == map[] {
        return Err(UpdatesEmptyMessage);
      }
      if failure.Some? {
        return Err(failure.value);
      }
      match KeyOf(key, keyName)
      case None =>
        r := Err(KeySchemaMessage);
      case Some(k) =>
        items := Upsert(items, keyName, k, updates);
        r := Ok(());
    }

    /** `deleteItem(table, key)` */
    method DeleteItem(key: Record, failure: Option<string>) returns (r: Result<()>)
      requires Valid()
      modifies this
      ensures Valid()
      ensures r.Ok? <==> failure.None? && KeyOf(key, keyName).Some?
      ensures failure.Some? ==> r == Err(failure.value)
      ensures r.Ok? ==> items == Remove(old(items), keyName, KeyOf(key, keyName).value)
      ensures r.Err? ==> items == old(items)
    {
      if failure.Some? {
        return Err(failure.value);
      }
      match KeyOf(key, keyName)
      case None =>
        r := Err(KeySchemaMessage);
      case Some(k) =>
        items := Remove(items, keyName, k);
        r := Ok(());
    }
  }
}
