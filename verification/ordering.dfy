/** Python's ordering of strings (code point by code point, a proper prefix
    first) and `list.sort(key=...)`, which is stable. The scripts use it to
    sort by timestamp strings. */
module Ordering {
  import opened Lists

  /** `a <= b` for Python strings. */
  predicate LexLe(a: string, b: string): (r: bool)
    ensures a <= b ==> r
    ensures r && |a| > 0 ==> |b| > 0 && a[0] <= b[0]
  {
    |a| == 0 || (|b| > 0 && (a[0] < b[0] || (a[0] == b[0] && LexLe(a[1..], b[1..]))))
  }

  /** `a < b` for Python strings: the comparison `list.sort` uses. */
  predicate LexLt(a: string, b: string): (r: bool)
    ensures r <==> !LexLe(b, a)
  {
    StrictIsNotGe(a, b);
    LexLe(a, b) && a != b
  }

  lemma {:induction false} LexLeReflexive(a: string)
    ensures LexLe(a, a)
  {
    if |a| > 0 {
      LexLeReflexive(a[1..]);
    }
  }

  lemma {:induction false} LexLeAntisymmetric(a: string, b: string)
    requires LexLe(a, b) && LexLe(b, a)
    ensures a == b
  {
    if |a| > 0 && |b| > 0 {
      LexLeAntisymmetric(a[1..], b[1..]);
      assert a == [a[0]] + a[1..] && b == [b[0]] + b[1..];
    }
  }

  lemma {:induction false} LexLeTransitive(a: string, b: string, c: string)
    requires LexLe(a, b) && LexLe(b, c)
    ensures LexLe(a, c)
  {
    if |a| > 0 && |b| > 0 && |c| > 0 && a[0] == b[0] == c[0] {
      LexLeTransitive(a[1..], b[1..], c[1..]);
    }
  }

  lemma {:induction false} LexLeTotal(a: string, b: string)
    ensures LexLe(a, b) || LexLe(b, a)
  {
    if |a| > 0 && |b| > 0 && a[0] == b[0] {
      LexLeTotal(a[1..], b[1..]);
    }
  }

  /** The order is total, so the strict order holds exactly when `LexLe`
      fails the other way. */
  lemma StrictIsNotGe(a: string, b: string)
    ensures LexLe(a, b) && a != b <==> !LexLe(b, a)
  {
    LexLeTotal(a, b);
    if LexLe(a, b) && LexLe(b, a) {
      LexLeAntisymmetric(a, b);
    }
    if a == b {
      LexLeReflexive(a);
    }
  }

  /** `s` is in non-decreasing order of `key`. */
  ghost predicate Sorted<T>(s: seq<T>, key: T -> string)
  {
    forall i, j :: 0 <= i < j < |s| ==> LexLe(key(s[i]), key(s[j]))
  }

  /** `p` holds only of elements sharing one key. */
  ghost predicate WithinOneKey<T(!new)>(p: T -> bool, key: T -> string)
  {
    forall x, y :: p(x) && p(y) ==> key(x) == key(y)
  }

  /** `t` keeps the relative order that `s` has among elements with equal keys:
      selecting any set of elements that share a key gives the same list from both. */
  ghost predicate StableFor<T(!new)>(t: seq<T>, s: seq<T>, key: T -> string)
  {
    forall p: T -> bool :: WithinOneKey(p, key) ==> Filter(t, p) == Filter(s, p)
  }

  /** Places `x` into the sorted `t` after every element whose key is not
      greater than `x`'s. */
  function Insert<T>(t: seq<T>, x: T, key: T -> string): (r: seq<T>)
    ensures |r| == |t| + 1
  {
    if t == [] || !LexLt(key(x), key(t[|t| - 1])) then t + [x]
    else Insert(t[..|t| - 1], x, key) + [t[|t| - 1]]
  }

  /** `sorted(s, key=key)`: a stable insertion sort, element by element in order. */
  function SortBy<T>(s: seq<T>, key: T -> string): (r: seq<T>)
    ensures |r| == |s|
  {
    if s == [] then [] else Insert(SortBy(s[..|s| - 1], key), s[|s| - 1], key)
  }

  lemma {:induction false} InsertPermutes<T>(t: seq<T>, x: T, key: T -> string)
    ensures multiset(Insert(t, x, key)) == multiset(t) + multiset{x}
  {
    if t != [] && LexLt(key(x), key(t[|t| - 1])) {
      InsertPermutes(t[..|t| - 1], x, key);
      assert t == t[..|t| - 1] + [t[|t| - 1]];
    }
  }

  lemma {:induction false} InsertSorted<T>(t: seq<T>, x: T, key: T -> string)
    requires Sorted(t, key)
    ensures Sorted(Insert(t, x, key), key)
  {
    var n := |t|;
    if t == [] {
    } else if !LexLt(key(x), key(t[n - 1])) {
      forall i | 0 <= i < n ensures LexLe(key(t[i]), key(x)) {
        if i < n - 1 {
          LexLeTransitive(key(t[i]), key(t[n - 1]), key(x));
        }
      }
    } else {
      var front := t[..n - 1];
      var last := t[n - 1];
      assert Sorted(front, key);
      InsertSorted(front, x, key);
      InsertPermutes(front, x, key);
      var u := Insert(front, x, key);
      forall i | 0 <= i < |u| ensures LexLe(key(u[i]), key(last)) {
        assert u[i] in multiset(u);
        if u[i] == x {
          assert LexLe(key(x), key(last));
        } else {
          assert u[i] in multiset(front);
          var j :| 0 <= j < |front| && front[j] == u[i];
          assert t[j] == front[j];
        }
      }
    }
  }

  /** Filtering by a predicate that selects within one key commutes with insertion:
      the inserted element lands after every selected element already in `t`. */
  lemma {:induction false} InsertFilter<T(!new)>(t: seq<T>, x: T, key: T -> string, p: T -> bool)
    requires WithinOneKey(p, key)
    ensures Filter(Insert(t, x, key), p) == Filter(t, p) + (if p(x) then [x] else [])
  {
    var n := |t|;
    if t == [] || !LexLt(key(x), key(t[n - 1])) {
      FilterConcat(t, [x], p);
    } else {
      var front := t[..n - 1];
      var last := t[n - 1];
      var u := Insert(front, x, key);
      var mine := if p(x) then [x] else [];
      assert t == front + [last];
      assert key(x) != key(last);
      assert mine + Filter([last], p) == Filter([last], p) + mine;
      calc {
        Filter(Insert(t, x, key), p);
        Filter(u + [last], p);
        { FilterConcat(u, [last], p); }
        Filter(u, p) + Filter([last], p);
        { InsertFilter(front, x, key, p); }
        Filter(front, p) + mine + Filter([last], p);
        Filter(front, p) + Filter([last], p) + mine;
        { FilterConcat(front, [last], p); }
        Filter(t, p) + mine;
      }
    }
  }

  lemma {:induction false} SortBySorted<T>(s: seq<T>, key: T -> string)
    ensures Sorted(SortBy(s, key), key)
  {
    if s != [] {
      SortBySorted(s[..|s| - 1], key);
      InsertSorted(SortBy(s[..|s| - 1], key), s[|s| - 1], key);
    }
  }

  lemma {:induction false} SortByPermutes<T>(s: seq<T>, key: T -> string)
    ensures multiset(SortBy(s, key)) == multiset(s)
  {
    if s != [] {
      SortByPermutes(s[..|s| - 1], key);
      InsertPermutes(SortBy(s[..|s| - 1], key), s[|s| - 1], key);
      assert s == s[..|s| - 1] + [s[|s| - 1]];
    }
  }

  lemma {:induction false} SortByStable<T(!new)>(s: seq<T>, key: T -> string)
    ensures StableFor(SortBy(s, key), s, key)
  {
    forall p: T -> bool | WithinOneKey(p, key)
      ensures Filter(SortBy(s, key), p) == Filter(s, p)
    {
      SortByFilter(s, key, p);
    }
  }

  lemma {:induction false} SortByFilter<T(!new)>(s: seq<T>, key: T -> string, p: T -> bool)
    requires WithinOneKey(p, key)
    ensures Filter(SortBy(s, key), p) == Filter(s, p)
  {
    if s != [] {
      var front := s[..|s| - 1];
      SortByFilter(front, key, p);
      InsertFilter(SortBy(front, key), s[|s| - 1], key, p);
    }
  }
}
