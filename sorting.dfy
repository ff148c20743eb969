/** The in-place `Array.prototype.sort` calls that put the newest account
    first in the three listing services. */
module Sorting {
  import opened Js

  /** The sort key a comparator reads from a record: `Some(ms)` for a record
      whose `createdAt` the comparator can compare, `None` for one it treats as
      equal to everything. */
  type SortKey = Record -> Option<int>

  predicate AllKeyed(key: SortKey, s: seq<Record>)
  {
    forall i :: 0 <= i < |s| ==> key(s[i]).Some?
  }

  predicate NewestFirst(key: SortKey, s: seq<Record>)
    requires AllKeyed(key, s)
  {
    forall i, j :: 0 <= i < j < |s| ==> key(s[i]).value >= key(s[j]).value
  }

  /** The comparator `(a, b) => key(b) - key(a)`, which is `0` when either key
      is missing: true when b must move in front of a. */
  predicate Before(key: SortKey, b: Record, a: Record)
  {
    key(a).Some? && key(b).Some? && key(b).value > key(a).value
  }

  /** The first n records are newest first. */
  predicate SortedPrefix(key: SortKey, s: seq<Record>, n: int)
    requires AllKeyed(key, s)
  {
    forall p, q :: 0 <= p < q < n && q < |s| ==> key(s[p]).value >= key(s[q]).value
  }

  /** The first i + 1 records are newest first, except that the record at j
      may still be newer than those before it. */
  predicate SortedAround(key: SortKey, s: seq<Record>, i: int, j: int)
    requires AllKeyed(key, s)
  {
    && (forall p, q :: 0 <= p < q <= i && q != j && q < |s| ==> key(s[p]).value >= key(s[q]).value)
    && (forall p, q :: 0 <= p < j < q <= i && q < |s| ==> key(s[p]).value >= key(s[q]).value)
  }

  function Swap(s: seq<Record>, j: int): (t: seq<Record>)
    requires 0 < j < |s|
    ensures |t| == |s| && multiset(t) == multiset(s)
  {
    s[j - 1 := s[j]][j := s[j - 1]]
  }

  /** Moving the record at j one place to the front, past an older one, keeps
      the rest in order. */
  lemma SwapStep(key: SortKey, s: seq<Record>, i: int, j: int)
    requires 0 < j <= i < |s| && AllKeyed(key, s)
    requires SortedAround(key, s, i, j)
    requires key(s[j]).value > key(s[j - 1]).value
    ensures AllKeyed(key, Swap(s, j)) && SortedAround(key, Swap(s, j), i, j - 1)
  {
    var t := Swap(s, j);
    assert forall k :: 0 <= k < |s| ==> t[k] == (if k == j - 1 then s[j] else if k == j then s[j - 1] else s[k]);
  }

  /** Once the record at j is no newer than its predecessor, the first i + 1
      records are in order. */
  lemma InsertDone(key: SortKey, s: seq<Record>, i: int, j: int)
    requires 0 <= j <= i < |s| && AllKeyed(key, s)
    requires SortedAround(key, s, i, j)
    requires j == 0 || key(s[j]).value <= key(s[j - 1]).value
    ensures SortedPrefix(key, s, i + 1)
  {
  }

  /** A stable in-place sort with that comparator. It always rearranges the
      records and nothing more; when every record has a key, the result is
      newest first. */
  method SortNewestFirst(a: array<Record>, key: SortKey)
    modifies a
    ensures multiset(a[..]) == multiset(old(a[..]))
    ensures AllKeyed(key, old(a[..])) ==> AllKeyed(key, a[..]) && NewestFirst(key, a[..])
  {
    ghost var keyed := AllKeyed(key, a[..]);
    var i := 1;
    while i < a.Length
      invariant a.Length == 0 || 1 <= i <= a.Length
      invariant multiset(a[..]) == multiset(old(a[..]))
      invariant keyed ==> AllKeyed(key, a[..]) && SortedPrefix(key, a[..], i)
    {
      var j := i;
      while j > 0 && Before(key, a[j], a[j - 1])
        invariant 0 <= j <= i < a.Length
        invariant multiset(a[..]) == multiset(old(a[..]))
        invariant keyed ==> AllKeyed(key, a[..]) && SortedAround(key, a[..], i, j)
      {
        ghost var s := a[..];
        a[j - 1], a[j] := a[j], a[j - 1];
        assert a[..] == Swap(s, j);
        if keyed {
          SwapStep(key, s, i, j);
        }
        j := j - 1;
      }
      if keyed {
        InsertDone(key, a[..], i, j);
      }
      i := i + 1;
    }
  }

  /** The largest time value a `Date` holds, in milliseconds either side of
      the epoch. */
  const MaxTime: int := 8_640_000_000_000_000

  /** `new Date(v).getTime()`, with `None` for `NaN`: `undefined` and a number
      beyond the range are `NaN`, `null` and `false` are 0 and `true` is 1. A
      text is not parsed as a date and counts as `NaN`. */
  function TimeValue(v: Option<Value>): (t: Option<int>)
    ensures v.None? ==> t.None?
    ensures v == Some(Null) || v == Some(Bool(false)) ==> t == Some(0)
    ensures v == Some(Bool(true)) ==> t == Some(1)
    ensures v.Some? && v.value.Str? ==> t.None?
    ensures v.Some? && v.value.Num? ==> (t.Some? <==> -MaxTime <= v.value.n <= MaxTime)
    ensures v.Some? && v.value.Num? && t.Some? ==> t.value == v.value.n
  {
    match v
    case None => None
    case Some(Null) => Some(0)
    case Some(Bool(b)) => Some(if b then 1 else 0)
    case Some(Str(_)) => None
    case Some(Num(n)) => if -MaxTime <= n <= MaxTime then Some(n) else None
  }

  /** The inspectors' key, `new Date(createdAt || 0)`: a record with a falsy
      timestamp counts as one taken at time 0. */
  function CreatedAtOrZero(r: Record): (k: Option<int>)
    ensures !Truthy(Get(r, "createdAt")) ==> k == Some(0)
    ensures Truthy(Get(r, "createdAt")) ==> k == TimeValue(Get(r, "createdAt"))
  {
    TimeValue(Or(Get(r, "createdAt"), Some(Num(0))))
  }

  /** The owners' key, `new Date(createdAt)`. */
  function CreatedAt(r: Record): (k: Option<int>)
    ensures "createdAt" !in r ==> k.None?
    ensures k == TimeValue(Get(r, "createdAt"))
  {
    TimeValue(Get(r, "createdAt"))
  }

  /** The officers' key: `if (!a.createdAt || !b.createdAt) return 0` leaves
      a falsy timestamp with nothing to compare; a truthy one is read as
      `new Date(createdAt)`. */
  function TruthyCreatedAt(r: Record): (k: Option<int>)
    ensures !Truthy(Get(r, "createdAt")) ==> k.None?
    ensures Truthy(Get(r, "createdAt")) ==> k == TimeValue(Get(r, "createdAt"))
  {
    if Truthy(Get(r, "createdAt")) then TimeValue(Get(r, "createdAt")) else None
  }

  /** Which timestamps the three keys compare: the inspectors' key compares
      every falsy timestamp as 0, the officers' key none of them, and on a
      truthy timestamp all three agree. */
  lemma KeysAgreeOnTruthy(r: Record)
    ensures Truthy(Get(r, "createdAt")) ==> CreatedAtOrZero(r) == CreatedAt(r) == TruthyCreatedAt(r)
    ensures !Truthy(Get(r, "createdAt")) ==> CreatedAtOrZero(r) == Some(0) && TruthyCreatedAt(r).None?
  {
  }

  /** In a newest-first list, the first record that satisfies p is at least
      as new as every record that does. */
  lemma FirstMatchIsNewest(key: SortKey, s: seq<Record>, p: Record -> bool, k: int)
    requires AllKeyed(key, s) && NewestFirst(key, s)
    requires 0 <= k < |s| && p(s[k]) && forall j :: 0 <= j < k ==> !p(s[j])
    ensures forall j :: 0 <= j < |s| && p(s[j]) ==> key(s[k]).value >= key(s[j]).value
  {
  }

  /** Copies a list into a fresh array, sorts it and returns the result. */
  method SortedNewestFirst(s: seq<Record>, key: SortKey) returns (r: seq<Record>)
    ensures multiset(r) == multiset(s)
    ensures AllKeyed(key, s) ==> AllKeyed(key, r) && NewestFirst(key, r)
  {
    var a := new Record[|s|](i requires 0 <= i < |s| => s[i]);
    assert a[..] == s;
    SortNewestFirst(a, key);
    r := a[..];
  }
}
