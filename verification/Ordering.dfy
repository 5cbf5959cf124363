/** Lexicographic order on strings and a stable sort, shared by the modules that rank rows. */
module Ordering {

  /** Python's `<` on strings, which compares code points from the left. */
  predicate LexLess(a: string, b: string) {
    if a == [] then b != []
    else if b == [] then false
    else a[0] < b[0] || (a[0] == b[0] && LexLess(a[1..], b[1..]))
  }

  /** Exactly one of `a < b`, `a == b`, `b < a` holds. */
  lemma {:induction false} LexTrichotomy(a: string, b: string)
    ensures LexLess(a, b) || a == b || LexLess(b, a)
    ensures !(LexLess(a, b) && LexLess(b, a))
    ensures !LexLess(a, a)
  {
    if a != [] {
      LexTrichotomy(a[1..], a[1..]);
      if b != [] {
        LexTrichotomy(a[1..], b[1..]);
        if a[0] == b[0] && a[1..] == b[1..] {
          assert a == [a[0]] + a[1..] == [b[0]] + b[1..] == b;
        }
      }
    }
  }

  lemma {:induction false} LexTransitive(a: string, b: string, c: string)
    requires LexLess(a, b) && LexLess(b, c)
    ensures LexLess(a, c)
  {
    if a != [] && a[0] == b[0] == c[0] {
      LexTransitive(a[1..], b[1..], c[1..]);
    }
  }

  /** `le` is transitive and total on the elements that occur in `s`. */
  ghost predicate TotalPreorderOn<T(!new)>(le: (T, T) -> bool, s: seq<T>) {
    && (forall a, b | a in s && b in s :: le(a, b) || le(b, a))
    && (forall a, b, c | a in s && b in s && c in s && le(a, b) && le(b, c) :: le(a, c))
  }

  ghost predicate SortedBy<T(!new)>(le: (T, T) -> bool, s: seq<T>) {
    forall i, j | 0 <= i < j < |s| :: le(s[i], s[j])
  }

  function Insert<T>(le: (T, T) -> bool, x: T, s: seq<T>): seq<T> {
    if s == [] || le(x, s[0]) then [x] + s else [s[0]] + Insert(le, x, s[1..])
  }

  /** A stable sort: among elements that are mutually `le`, the earlier one stays first. */
  function Sort<T>(le: (T, T) -> bool, s: seq<T>): seq<T> {
    if s == [] then [] else Insert(le, s[0], Sort(le, s[1..]))
  }

  function Filter<T>(p: T -> bool, s: seq<T>): seq<T> {
    if s == [] then []
    else if p(s[0]) then [s[0]] + Filter(p, s[1..])
    else Filter(p, s[1..])
  }

  lemma {:induction false} InsertMultiset<T>(le: (T, T) -> bool, x: T, s: seq<T>)
    ensures multiset(Insert(le, x, s)) == multiset{x} + multiset(s)
  {
    if s != [] && !le(x, s[0]) {
      InsertMultiset(le, x, s[1..]);
      assert s == [s[0]] + s[1..];
    }
  }

  lemma {:induction false} SortMultiset<T>(le: (T, T) -> bool, s: seq<T>)
    ensures multiset(Sort(le, s)) == multiset(s)
    ensures |Sort(le, s)| == |s|
  {
    if s != [] {
      SortMultiset(le, s[1..]);
      InsertMultiset(le, s[0], Sort(le, s[1..]));
      assert s == [s[0]] + s[1..];
    }
    assert |Sort(le, s)| == |multiset(Sort(le, s))| == |multiset(s)| == |s|;
  }

  lemma SameElements<T>(a: seq<T>, b: seq<T>, x: T)
    requires multiset(a) == multiset(b)
    ensures x in a <==> x in b
  {
    assert x in a <==> x in multiset(a);
    assert x in b <==> x in multiset(b);
  }

  lemma CountedTwice<T>(s: seq<T>, i: nat, j: nat)
    requires i < j < |s| && s[i] == s[j]
    ensures multiset(s)[s[i]] >= 2
  {
    assert s == s[..i] + [s[i]] + s[i + 1..j] + [s[j]] + s[j + 1..];
  }

  lemma {:induction false} InsertSorted<T(!new)>(le: (T, T) -> bool, x: T, s: seq<T>)
    requires SortedBy(le, s) && TotalPreorderOn(le, [x] + s)
    ensures SortedBy(le, Insert(le, x, s))
  {
    var all := [x] + s;
    assert x == all[0] && forall i | 0 <= i < |s| :: s[i] == all[i + 1];
    if s != [] && !le(x, s[0]) {
      var rest := Insert(le, x, s[1..]);
      forall a | a in [x] + s[1..] ensures a in all {
        assert a == x || a in s;
      }
      InsertSorted(le, x, s[1..]);
      InsertMultiset(le, x, s[1..]);
      assert multiset([x] + s[1..]) == multiset{x} + multiset(s[1..]);
      forall j | 0 <= j < |rest| ensures le(s[0], rest[j]) {
        SameElements(rest, [x] + s[1..], rest[j]);
        if rest[j] != x {
          assert rest[j] in s[1..];
        }
      }
    } else if s != [] {
      forall j | 0 <= j < |s| ensures le(x, s[j]) {
        assert s[0] in all && s[j] in all;
      }
    }
  }

  lemma {:induction false} SortSorted<T(!new)>(le: (T, T) -> bool, s: seq<T>)
    requires TotalPreorderOn(le, s)
    ensures SortedBy(le, Sort(le, s))
  {
    if s != [] {
      var rest := Sort(le, s[1..]);
      SortSorted(le, s[1..]);
      SortMultiset(le, s[1..]);
      forall a | a in [s[0]] + rest ensures a in s {
        if a != s[0] {
          assert a in rest;
          SameElements(rest, s[1..], a);
        }
      }
      InsertSorted(le, s[0], rest);
    }
  }

  lemma {:induction false} FilterElements<T>(p: T -> bool, s: seq<T>, x: T)
    ensures x in Filter(p, s) <==> x in s && p(x)
  {
    if s != [] {
      FilterElements(p, s[1..], x);
      assert s == [s[0]] + s[1..];
    }
  }

  lemma {:induction false} FilterInsert<T(!new)>(p: T -> bool, le: (T, T) -> bool, x: T, s: seq<T>)
    requires SortedBy(le, s) && TotalPreorderOn(le, [x] + s)
    ensures Filter(p, Insert(le, x, s)) == if p(x) then Insert(le, x, Filter(p, s)) else Filter(p, s)
  {
    if s == [] {
      assert Insert(le, x, s) == [x];
      assert [x][1..] == [];
    } else if le(x, s[0]) {
      assert ([x] + s)[1..] == s;
      var f := Filter(p, s);
      if f != [] {
        FilterElements(p, s, f[0]);
        var i :| 0 <= i < |s| && s[i] == f[0];
        var all := [x] + s;
        assert all[0] == x && all[1] == s[0] && all[i + 1] == s[i];
        assert le(x, f[0]);
      }
    } else {
      var all := [x] + s;
      forall a | a in [x] + s[1..] ensures a in all {
        assert a == x || a in s;
      }
      FilterInsert(p, le, x, s[1..]);
      assert Insert(le, x, s)[1..] == Insert(le, x, s[1..]);
      if p(s[0]) && p(x) {
        assert ([s[0]] + Filter(p, s[1..]))[1..] == Filter(p, s[1..]);
      }
    }
  }

  /** Filtering a relation and then sorting it gives the filtered sorted relation. */
  lemma {:induction false} SortFilterCommute<T(!new)>(p: T -> bool, le: (T, T) -> bool, s: seq<T>)
    requires TotalPreorderOn(le, s)
    ensures Sort(le, Filter(p, s)) == Filter(p, Sort(le, s))
  {
    if s != [] {
      var rest := Sort(le, s[1..]);
      SortFilterCommute(p, le, s[1..]);
      SortSorted(le, s[1..]);
      SortMultiset(le, s[1..]);
      forall a | a in [s[0]] + rest ensures a in s {
        if a != s[0] {
          assert a in rest;
          SameElements(rest, s[1..], a);
        }
      }
      FilterInsert(p, le, s[0], rest);
      if p(s[0]) {
        assert ([s[0]] + Filter(p, s[1..]))[1..] == Filter(p, s[1..]);
      }
    }
  }
}
