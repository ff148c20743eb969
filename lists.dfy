/** `Array.prototype.filter` and `find`, with and without a callback that can
    throw, and the order-preserving subsequence relation they establish. */
module Lists {
  import opened Js

  /** ys can be obtained from xs by deleting elements, keeping the order. */
  predicate IsSubsequence<T(==)>(ys: seq<T>, xs: seq<T>)
    decreases |xs|
  {
    ys == [] ||
    (xs != [] && ((ys[0] == xs[0] && IsSubsequence(ys[1..], xs[1..])) || IsSubsequence(ys, xs[1..])))
  }

  lemma {:induction false} SubsequenceReflexive<T>(xs: seq<T>)
    ensures IsSubsequence(xs, xs)
    decreases |xs|
  {
    if xs != [] {
      SubsequenceReflexive(xs[1..]);
    }
  }

  /** `xs.filter(p)` for a callback that cannot throw. */
  function Filter<T>(p: T -> bool, xs: seq<T>): (ys: seq<T>)
    ensures |ys| <= |xs|
    decreases |xs|
  {
    if xs == [] then []
    else if p(xs[0]) then [xs[0]] + Filter(p, xs[1..])
    else Filter(p, xs[1..])
  }

  /** The elements kept are exactly those of xs that satisfy p. */
  lemma {:induction false} FilterMembers<T>(p: T -> bool, xs: seq<T>)
    ensures forall y :: y in Filter(p, xs) <==> y in xs && p(y)
    decreases |xs|
  {
    if xs != [] {
      FilterMembers(p, xs[1..]);
      assert xs == [xs[0]] + xs[1..];
    }
  }

  /** The filter result keeps the order of xs. */
  lemma {:induction false} FilterIsSubsequence<T>(p: T -> bool, xs: seq<T>)
    ensures IsSubsequence(Filter(p, xs), xs)
    decreases |xs|
  {
    if xs != [] {
      FilterIsSubsequence(p, xs[1..]);
      if p(xs[0]) {
        assert ([xs[0]] + Filter(p, xs[1..]))[1..] == Filter(p, xs[1..]);
      }
    }
  }

  lemma {:induction false} FilterAllPass<T>(p: T -> bool, xs: seq<T>)
    requires forall i :: 0 <= i < |xs| ==> p(xs[i])
    ensures Filter(p, xs) == xs
    decreases |xs|
  {
    if xs != [] {
      FilterAllPass(p, xs[1..]);
    }
  }

  /** Filtering by a weaker condition keeps at least the same elements, in the
      same order. */
  lemma {:induction false} FilterWeaker<T>(p: T -> bool, q: T -> bool, xs: seq<T>)
    requires forall i :: 0 <= i < |xs| && p(xs[i]) ==> q(xs[i])
    ensures IsSubsequence(Filter(p, xs), Filter(q, xs))
    decreases |xs|
  {
    if xs != [] {
      FilterWeaker(p, q, xs[1..]);
      var fp, fq := Filter(p, xs[1..]), Filter(q, xs[1..]);
      if p(xs[0]) {
        assert ([xs[0]] + fp)[1..] == fp && ([xs[0]] + fq)[1..] == fq;
      } else if q(xs[0]) {
        assert ([xs[0]] + fq)[1..] == fq;
        SubsequenceSkip(fp, xs[0], fq);
      }
    }
  }

  lemma {:induction false} SubsequenceSkip<T>(ys: seq<T>, x: T, xs: seq<T>)
    requires IsSubsequence(ys, xs)
    ensures IsSubsequence(ys, [x] + xs)
  {
    assert ([x] + xs)[1..] == xs;
  }

  /** `xs.map(f)` */
  function Map<T, U>(f: T -> U, xs: seq<T>): (ys: seq<U>)
    ensures |ys| == |xs| && forall i :: 0 <= i < |xs| ==> ys[i] == f(xs[i])
  {
    seq(|xs|, i requires 0 <= i < |xs| => f(xs[i]))
  }

  /** `xs.filter(p).map(f)` holds exactly the images of the elements p
      keeps. */
  lemma FilterMapMembers<T, U>(p: T -> bool, f: T -> U, xs: seq<T>, y: U)
    ensures y in Map(f, Filter(p, xs)) <==> exists x :: x in xs && p(x) && y == f(x)
  {
    var kept := Filter(p, xs);
    FilterMembers(p, xs);
    if y in Map(f, kept) {
      var j :| 0 <= j < |kept| && Map(f, kept)[j] == y;
      assert kept[j] in kept;
    }
    if exists x :: x in xs && p(x) && y == f(x) {
      var x :| x in xs && p(x) && y == f(x);
      assert x in kept;
      var j :| 0 <= j < |kept| && kept[j] == x;
      assert Map(f, kept)[j] == y;
    }
  }

  /** The callback as the filter sees it: an element is kept when the callback
      returns true. */
  function Accepts<T>(p: T -> Result<bool>): T -> bool
  {
    x => p(x) == Ok(true)
  }

  /** `xs.filter(p)` for a callback that may throw: the callback runs on every
      element in order, and the first exception aborts the whole call. */
  function FilterOrThrow<T>(p: T -> Result<bool>, xs: seq<T>): Result<seq<T>>
    decreases |xs|
  {
    if xs == [] then Ok([])
    else match p(xs[0])
      case Err(m) => Err(m)
      case Ok(keep) =>
        match FilterOrThrow(p, xs[1..])
        case Err(m) => Err(m)
        case Ok(rest) => Ok(if keep then [xs[0]] + rest else rest)
  }

  /** The filter succeeds exactly when the callback succeeds on every element,
      and then it keeps exactly the accepted elements, in order. */
  lemma {:induction false} FilterOrThrowMeaning<T>(p: T -> Result<bool>, xs: seq<T>)
    ensures FilterOrThrow(p, xs).Ok? <==> forall i :: 0 <= i < |xs| ==> p(xs[i]).Ok?
    ensures FilterOrThrow(p, xs).Ok? ==> FilterOrThrow(p, xs).value == Filter(Accepts(p), xs)
    decreases |xs|
  {
    if xs != [] {
      FilterOrThrowMeaning(p, xs[1..]);
      if FilterOrThrow(p, xs).Ok? {
        assert p(xs[0]).Ok?;
      } else if p(xs[0]).Ok? {
        var i :| 0 <= i < |xs[1..]| && !p(xs[1..][i]).Ok?;
        assert !p(xs[i + 1]).Ok?;
      }
    }
  }

  /** On failure, the message is the one the first failing callback threw. */
  lemma {:induction false} FilterOrThrowFirstError<T>(p: T -> Result<bool>, xs: seq<T>, k: nat)
    requires k < |xs| && p(xs[k]).Err?
    requires forall i :: 0 <= i < k ==> p(xs[i]).Ok?
    ensures FilterOrThrow(p, xs) == Err(p(xs[k]).message)
    decreases k
  {
    if k > 0 {
      FilterOrThrowFirstError(p, xs[1..], k - 1);
      assert p(xs[0]).Ok?;
    }
  }

  /** `xs.find(p) || null`: the first element satisfying p. */
  function Find<T>(p: T -> bool, xs: seq<T>): (r: Option<T>)
    decreases |xs|
  {
    if xs == [] then None
    else if p(xs[0]) then Some(xs[0])
    else Find(p, xs[1..])
  }

  /** Find returns the element at the first index that satisfies p, and None
      exactly when no element does. */
  lemma {:induction false} FindFirst<T>(p: T -> bool, xs: seq<T>)
    ensures Find(p, xs).None? <==> forall i :: 0 <= i < |xs| ==> !p(xs[i])
    ensures Find(p, xs).Some? ==>
      exists k :: 0 <= k < |xs| && xs[k] == Find(p, xs).value && p(xs[k]) &&
        forall i :: 0 <= i < k ==> !p(xs[i])
    decreases |xs|
  {
    if xs != [] && !p(xs[0]) {
      FindFirst(p, xs[1..]);
      if Find(p, xs).Some? {
        var k :| 0 <= k < |xs[1..]| && xs[1..][k] == Find(p, xs).value && p(xs[1..][k]) &&
          forall i :: 0 <= i < k ==> !p(xs[1..][i]);
        assert xs[k + 1] == Find(p, xs).value;
        assert forall i :: 0 <= i < k + 1 ==> !p(xs[i]) by {
          forall i | 0 <= i < k + 1 ensures !p(xs[i]) {
            if i > 0 { assert xs[i] == xs[1..][i - 1]; }
          }
        }
      } else {
        forall i | 0 <= i < |xs| ensures !p(xs[i]) {
          if i > 0 { assert xs[i] == xs[1..][i - 1]; }
        }
      }
    } else if xs != [] {
      assert xs[0] == Find(p, xs).value;
    }
  }
}
