/** Shared vocabulary of the backend model: optional values, the HTTP error
    statuses the route handlers raise, and the table queries that every
    crud module is built from (`.filter(...).first()`, `.filter(...).all()`,
    `.count()`). */
module Base {

  datatype Option<T> = None | Some(value: T)

  /** The HTTPException statuses raised by the handlers. `Unprocessable` is
      FastAPI's own 422 for a query parameter that fails its declared bounds;
      `ServerError` is the 500 that an uncaught exception (a violated unique
      constraint, an attribute read on None) turns into. */
  datatype Status =
    | BadRequest
    | Unauthorized
    | Forbidden
    | NotFound
    | Conflict
    | Unprocessable
    | ServerError

  function Code(s: Status): (c: int)
    ensures 400 <= c <= 500
    ensures s == ServerError <==> c == 500
  {
    match s
    case BadRequest => 400
    case Unauthorized => 401
    case Forbidden => 403
    case NotFound => 404
    case Conflict => 409
    case Unprocessable => 422
    case ServerError => 500
  }

  datatype Result<T> = Ok(value: T) | Err(status: Status)

  /** The position of the first row, in table order, that satisfies `p`. */
  function Find<T>(s: seq<T>, p: T -> bool): (r: Option<nat>)
    ensures r.Some? ==> r.value < |s| && p(s[r.value])
    ensures r.Some? ==> forall j :: 0 <= j < r.value ==> !p(s[j])
    ensures r.None? <==> forall i :: 0 <= i < |s| ==> !p(s[i])
  {
    if s == [] then None
    else if p(s[0]) then Some(0)
    else match Find(s[1..], p)
         case None => None
         case Some(k) => Some(k + 1)
  }

  /** `query.filter(p).first()`: the first row, in table order, that satisfies `p`. */
  function First<T>(s: seq<T>, p: T -> bool): (r: Option<T>)
    ensures r.Some? ==> r.value in s && p(r.value)
    ensures r.None? <==> forall i :: 0 <= i < |s| ==> !p(s[i])
    ensures r.Some? ==> exists i :: 0 <= i < |s| && s[i] == r.value && forall j :: 0 <= j < i ==> !p(s[j])
  {
    match Find(s, p)
    case None => None
    case Some(i) => Some(s[i])
  }

  /** Rows in front that do not qualify do not change what is found. */
  lemma FirstSkips<T>(a: seq<T>, b: seq<T>, p: T -> bool)
    requires forall i :: 0 <= i < |a| ==> !p(a[i])
    ensures First(a + b, p) == First(b, p)
  {
    var s := a + b;
    assert forall i :: 0 <= i < |b| ==> s[|a| + i] == b[i];
    assert First(s, p).None? <==> First(b, p).None?;
    if First(s, p).Some? {
      var i :| 0 <= i < |s| && s[i] == First(s, p).value && forall j :: 0 <= j < i ==> !p(s[j]);
      var k :| 0 <= k < |b| && b[k] == First(b, p).value && forall j :: 0 <= j < k ==> !p(b[j]);
      assert i >= |a|;
      assert !(i - |a| < k) && !(k < i - |a|);
    }
  }

  /** `query.filter(p).all()`: the rows that satisfy `p`, in table order. */
  function Filter<T>(s: seq<T>, p: T -> bool): (r: seq<T>)
    ensures |r| <= |s|
    ensures forall i :: 0 <= i < |r| ==> r[i] in s && p(r[i])
    ensures forall i :: 0 <= i < |s| && p(s[i]) ==> s[i] in r
  {
    if s == [] then []
    else (if p(s[0]) then [s[0]] else []) + Filter(s[1..], p)
  }

  lemma {:induction false} FilterConcat<T>(a: seq<T>, b: seq<T>, p: T -> bool)
    ensures Filter(a + b, p) == Filter(a, p) + Filter(b, p)
  {
    if a == [] {
      assert a + b == b;
    } else {
      assert (a + b)[1..] == a[1..] + b;
      FilterConcat(a[1..], b, p);
    }
  }

  /** Filtering by a predicate that every row satisfies keeps the whole table. */
  lemma {:induction false} FilterAll<T>(s: seq<T>, p: T -> bool)
    requires forall i :: 0 <= i < |s| ==> p(s[i])
    ensures Filter(s, p) == s
  {
    if s != [] {
      FilterAll(s[1..], p);
    }
  }

  /** A filter of a list without repetitions has none. */
  lemma {:induction false} FilterNoDup<T>(s: seq<T>, p: T -> bool)
    requires NoDup(s)
    ensures NoDup(Filter(s, p))
  {
    if s != [] {
      assert NoDup(s[1..]);
      FilterNoDup(s[1..], p);
      assert forall x :: x in Filter(s[1..], p) ==> x in s[1..];
    }
  }

  /** `query.count()`: the number of rows that satisfy `p`. */
  function Count<T>(s: seq<T>, p: T -> bool): (n: nat)
    ensures n <= |s|
    ensures n == 0 <==> forall i :: 0 <= i < |s| ==> !p(s[i])
  {
    if s == [] then 0
    else (if p(s[0]) then 1 else 0) + Count(s[1..], p)
  }

  lemma {:induction false} CountConcat<T>(a: seq<T>, b: seq<T>, p: T -> bool)
    ensures Count(a + b, p) == Count(a, p) + Count(b, p)
  {
    if a == [] {
      assert a + b == b;
    } else {
      assert (a + b)[1..] == a[1..] + b;
      CountConcat(a[1..], b, p);
    }
  }

  /** A count is the length of the corresponding filter. */
  lemma {:induction false} CountIsFilterLength<T>(s: seq<T>, p: T -> bool)
    ensures Count(s, p) == |Filter(s, p)|
  {
    if s != [] {
      CountIsFilterLength(s[1..], p);
    }
  }

  /** No element occurs twice. */
  predicate NoDup<T(==)>(s: seq<T>)
  {
    forall i, j :: 0 <= i < j < |s| ==> s[i] != s[j]
  }

  function Min(a: int, b: int): int { if a <= b then a else b }

  function Max(a: int, b: int): int { if a >= b then a else b }

  // ---------------------------------------------------------------------
  // Insertion-ordered counting, as done with a Python dict or Counter

  /** The distinct elements of `s` in order of first occurrence: the key
      order of a dict filled from `s`. */
  function Distinct<T(==,!new)>(s: seq<T>): (d: seq<T>)
    ensures NoDup(d)
    ensures forall x :: x in d <==> x in s
  {
    if s == [] then []
    else
      var d := Distinct(s[..|s| - 1]);
      assert forall x :: x in s <==> x in s[..|s| - 1] || x == s[|s| - 1];
      if s[|s| - 1] in d then d else d + [s[|s| - 1]]
  }

  /** The index of the first occurrence of `x` in `s`. */
  function FirstIndex<T(==)>(s: seq<T>, x: T): (k: nat)
    requires x in s
    ensures k < |s| && s[k] == x
    ensures forall i :: 0 <= i < k ==> s[i] != x
  {
    if s[0] == x then 0 else 1 + FirstIndex(s[1..], x)
  }

  lemma {:induction false} FirstIndexAppend<T>(s: seq<T>, y: T, x: T)
    requires x in s + [y]
    ensures x in s ==> FirstIndex(s + [y], x) == FirstIndex(s, x)
    ensures x !in s ==> FirstIndex(s + [y], x) == |s|
  {
    var k := FirstIndex(s + [y], x);
    if x in s {
      var k0 := FirstIndex(s, x);
      assert (s + [y])[k0] == x;
    }
  }

  lemma FirstIndexTail<T>(s: seq<T>, x: T)
    requires s != [] && x in s[1..] && x != s[0]
    ensures FirstIndex(s, x) == 1 + FirstIndex(s[1..], x)
  {
  }

  /** A filter keeps the relative order of the rows it selects. */
  lemma {:induction false} FilterKeepsOrder<T>(s: seq<T>, p: T -> bool, i: nat, j: nat)
    requires NoDup(s)
    requires i < j < |Filter(s, p)|
    ensures Filter(s, p)[i] in s && Filter(s, p)[j] in s
    ensures FirstIndex(s, Filter(s, p)[i]) < FirstIndex(s, Filter(s, p)[j])
  {
    var r, t := Filter(s, p), Filter(s[1..], p);
    assert NoDup(s[1..]);
    assert forall x :: x in s[1..] ==> x != s[0];
    if p(s[0]) {
      assert r == [s[0]] + t;
      assert r[j] == t[j - 1];
      FirstIndexTail(s, r[j]);
      if i > 0 {
        assert r[i] == t[i - 1];
        FirstIndexTail(s, r[i]);
        FilterKeepsOrder(s[1..], p, i - 1, j - 1);
      }
    } else {
      assert r == t;
      FirstIndexTail(s, r[i]);
      FirstIndexTail(s, r[j]);
      FilterKeepsOrder(s[1..], p, i, j);
    }
  }

  /** The keys are ordered by where each element first occurs. */
  lemma {:induction false} DistinctFirstOccurrence<T(!new)>(s: seq<T>)
    ensures forall i, j :: 0 <= i < j < |Distinct(s)| ==>
              FirstIndex(s, Distinct(s)[i]) < FirstIndex(s, Distinct(s)[j])
  {
    if s != [] {
      var t, y := s[..|s| - 1], s[|s| - 1];
      assert s == t + [y];
      DistinctFirstOccurrence(t);
      var d := Distinct(t);
      forall i | 0 <= i < |d|
        ensures FirstIndex(s, d[i]) == FirstIndex(t, d[i]) < |t|
      {
        FirstIndexAppend(t, y, d[i]);
      }
      if y !in d {
        FirstIndexAppend(t, y, y);
      }
    }
  }

  /** Number of occurrences of `x` in `s`. */
  function Occurrences<T(==)>(s: seq<T>, x: T): nat
  {
    multiset(s)[x]
  }

  /** The counts of a dict filled from `s` by `d[x] = d.get(x, 0) + 1`. */
  function Tally<T(==,!new)>(s: seq<T>): (m: map<T, int>)
    ensures forall x :: x in m <==> x in s
  {
    if s == [] then map[]
    else
      var m := Tally(s[..|s| - 1]);
      var x := s[|s| - 1];
      assert forall y :: y in s <==> y in s[..|s| - 1] || y == x;
      m[x := if x in m then m[x] + 1 else 1]
  }

  /** The tally holds the number of occurrences of each element. */
  lemma {:induction false} TallyCounts<T(!new)>(s: seq<T>)
    ensures forall x :: x in Tally(s) ==> Tally(s)[x] == Occurrences(s, x)
  {
    if s != [] {
      var t := s[..|s| - 1];
      TallyCounts(t);
      assert s == t + [s[|s| - 1]];
      assert multiset(s) == multiset(t) + multiset{s[|s| - 1]};
    }
  }

  /** Counting one more element: the keys and counts after `s + [x]`. */
  lemma TallySnoc<T(!new)>(s: seq<T>, x: T)
    ensures Tally(s + [x]) == Tally(s)[x := if x in Tally(s) then Tally(s)[x] + 1 else 1]
    ensures Distinct(s + [x]) == if x in Tally(s) then Distinct(s) else Distinct(s) + [x]
  {
    assert (s + [x])[..|s|] == s;
  }

  /** `sum(d[k] for k in keys)`. */
  function SumOver<T>(keys: seq<T>, m: map<T, int>): int
  {
    if keys == [] then 0
    else SumOver(keys[..|keys| - 1], m) + (if keys[|keys| - 1] in m then m[keys[|keys| - 1]] else 0)
  }

  lemma SumOverSnoc<T>(keys: seq<T>, m: map<T, int>, x: T)
    requires x in m
    ensures SumOver(keys + [x], m) == SumOver(keys, m) + m[x]
  {
    assert (keys + [x])[..|keys|] == keys;
  }

  lemma {:induction false} SumOverUpdateOther<T>(keys: seq<T>, m: map<T, int>, x: T, v: int)
    requires x !in keys
    ensures SumOver(keys, m[x := v]) == SumOver(keys, m)
  {
    if keys != [] {
      SumOverUpdateOther(keys[..|keys| - 1], m, x, v);
    }
  }

  lemma {:induction false} SumOverIncrement<T>(keys: seq<T>, m: map<T, int>, x: T)
    requires NoDup(keys) && x in keys && x in m
    ensures SumOver(keys, m[x := m[x] + 1]) == SumOver(keys, m) + 1
  {
    var t := keys[..|keys| - 1];
    if keys[|keys| - 1] == x {
      assert x !in t;
      SumOverUpdateOther(t, m, x, m[x] + 1);
    } else {
      assert x in t;
      SumOverIncrement(t, m, x);
    }
  }

  /** The counts of a tally add up to the number of elements counted. */
  lemma {:induction false} TallySum<T(!new)>(s: seq<T>)
    ensures SumOver(Distinct(s), Tally(s)) == |s|
  {
    if s != [] {
      var t, x := s[..|s| - 1], s[|s| - 1];
      assert s == t + [x];
      TallySum(t);
      TallySumSnoc(t, x);
    }
  }

  lemma TallySumSnoc<T(!new)>(t: seq<T>, x: T)
    ensures SumOver(Distinct(t + [x]), Tally(t + [x])) == SumOver(Distinct(t), Tally(t)) + 1
  {
    TallySnoc(t, x);
    var d, m := Distinct(t), Tally(t);
    if x in m {
      SumOverIncrement(d, m, x);
    } else {
      SumOverUpdateOther(d, m, x, 1);
      SumOverSnoc(d, m[x := 1], x);
    }
  }
}
