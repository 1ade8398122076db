/** Small value types and one sort shared by the other modules. */
module Prelude {
  datatype Option<+T> = None | Some(value: T)

  datatype Result<+T, +E> = Success(value: T) | Failure(error: E)
}

/** Strings in code-point order. */
module Text {
  predicate AtLeast(a: string, b: string) {
    b == [] || (a != [] && (a[0] > b[0] || (a[0] == b[0] && AtLeast(a[1..], b[1..]))))
  }

  lemma {:induction false} Order(a: string, b: string, c: string)
    ensures AtLeast(a, b) || AtLeast(b, a)
    ensures AtLeast(a, b) && AtLeast(b, c) ==> AtLeast(a, c)
    decreases |a|
  {
    if a != [] {
      Order(a[1..], if b == [] then b else b[1..], if c == [] then c else c[1..]);
    }
  }
}

/** A stable descending sort, as `list.sort(key=..., reverse=True)` performs it: elements
    with equal keys keep their order. */
module Sorting {

  ghost predicate TotalPreorder<T(!new)>(geq: (T, T) -> bool) {
    && (forall x, y :: geq(x, y) || geq(y, x))
    && (forall x, y, z :: geq(x, y) && geq(y, z) ==> geq(x, z))
  }

  ghost predicate Descending<T>(s: seq<T>, geq: (T, T) -> bool) {
    forall i, j :: 0 <= i < j < |s| ==> geq(s[i], s[j])
  }

  function Insert<T>(x: T, s: seq<T>, geq: (T, T) -> bool): seq<T> {
    if s == [] then [x]
    else if geq(x, s[0]) then [x] + s
    else [s[0]] + Insert(x, s[1..], geq)
  }

  function Sort<T>(s: seq<T>, geq: (T, T) -> bool): seq<T> {
    if s == [] then [] else Insert(s[0], Sort(s[1..], geq), geq)
  }

  lemma {:induction false} InsertKeeps<T>(x: T, s: seq<T>, geq: (T, T) -> bool)
    ensures multiset(Insert(x, s, geq)) == multiset([x] + s)
  {
    if s != [] && !geq(x, s[0]) {
      InsertKeeps(x, s[1..], geq);
      assert s == [s[0]] + s[1..];
    }
  }

  /** Sorting loses and invents nothing. */
  lemma {:induction false} SortKeeps<T>(s: seq<T>, geq: (T, T) -> bool)
    ensures multiset(Sort(s, geq)) == multiset(s)
    ensures |Sort(s, geq)| == |s|
    ensures forall x :: x in Sort(s, geq) <==> x in s
  {
    if s != [] {
      SortKeeps(s[1..], geq);
      InsertKeeps(s[0], Sort(s[1..], geq), geq);
      assert s == [s[0]] + s[1..];
    }
    assert |multiset(s)| == |s| && |multiset(Sort(s, geq))| == |Sort(s, geq)|;
    forall x ensures x in Sort(s, geq) <==> x in s {
      assert x in s <==> x in multiset(s);
      assert x in Sort(s, geq) <==> x in multiset(Sort(s, geq));
    }
  }

  lemma {:induction false} InsertDescends<T(!new)>(x: T, s: seq<T>, geq: (T, T) -> bool)
    requires TotalPreorder(geq) && Descending(s, geq)
    ensures Descending(Insert(x, s, geq), geq)
  {
    var r := Insert(x, s, geq);
    if s != [] && !geq(x, s[0]) {
      InsertDescends(x, s[1..], geq);
      InsertKeeps(x, s[1..], geq);
      var t := Insert(x, s[1..], geq);
      forall j | 0 <= j < |t| ensures geq(s[0], t[j]) {
        assert t[j] in multiset(t);
        assert t[j] in [x] + s[1..];
      }
    }
  }

  lemma {:induction false} SortDescends<T(!new)>(s: seq<T>, geq: (T, T) -> bool)
    requires TotalPreorder(geq)
    ensures Descending(Sort(s, geq), geq)
  {
    if s != [] {
      SortDescends(s[1..], geq);
      InsertDescends(s[0], Sort(s[1..], geq), geq);
    }
  }

  predicate Tie<T>(x: T, k: T, geq: (T, T) -> bool) { geq(x, k) && geq(k, x) }

  /** The elements that tie with `k`. */
  function Ties<T>(s: seq<T>, k: T, geq: (T, T) -> bool): seq<T> {
    if s == [] then [] else (if Tie(s[0], k, geq) then [s[0]] else []) + Ties(s[1..], k, geq)
  }

  lemma OneTies<T(!new)>(x: T, y: T, k: T, geq: (T, T) -> bool)
    requires TotalPreorder(geq) && !geq(x, y)
    ensures !(Tie(x, k, geq) && Tie(y, k, geq))
  {
  }

  lemma {:induction false} InsertStable<T(!new)>(x: T, s: seq<T>, k: T, geq: (T, T) -> bool)
    requires TotalPreorder(geq)
    ensures Ties(Insert(x, s, geq), k, geq) == (if Tie(x, k, geq) then [x] else []) + Ties(s, k, geq)
  {
    if s == [] || geq(x, s[0]) {
      assert ([x] + s)[1..] == s;
    } else {
      InsertStable(x, s[1..], k, geq);
      OneTies(x, s[0], k, geq);
      assert ([s[0]] + Insert(x, s[1..], geq))[1..] == Insert(x, s[1..], geq);
    }
  }

  /** Elements with equal keys keep their order. */
  lemma {:induction false} SortStable<T(!new)>(s: seq<T>, k: T, geq: (T, T) -> bool)
    requires TotalPreorder(geq)
    ensures Ties(Sort(s, geq), k, geq) == Ties(s, k, geq)
  {
    if s != [] {
      SortStable(s[1..], k, geq);
      InsertStable(s[0], Sort(s[1..], geq), k, geq);
    }
  }
}
