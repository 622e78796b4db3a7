/** Python's `sorted` on keys made of a number and a string. */
module Ordering {
  import opened Text

  /** An item with the key it is sorted by: the rank first, the name next. */
  datatype Keyed<T> = Keyed(rank: int, name: string, item: T)

  predicate Before<T, U>(a: Keyed<T>, b: Keyed<U>) {
    a.rank < b.rank || (a.rank == b.rank && LexLess(a.name, b.name))
  }

  ghost predicate Sorted<T>(s: seq<Keyed<T>>) {
    forall i, j | 0 <= i < j < |s| :: !Before(s[j], s[i])
  }

  lemma NotBeforeTransitive<T>(a: Keyed<T>, b: Keyed<T>, c: Keyed<T>)
    requires !Before(b, a) && !Before(c, b)
    ensures !Before(c, a)
  {
    if Before(c, a) && c.rank == a.rank {
      LexTotal(a.name, b.name);
      if LexLess(a.name, b.name) {
        LexTransitive(c.name, a.name, b.name);
      }
    }
  }

  lemma BeforeAsymmetric<T>(a: Keyed<T>, b: Keyed<T>)
    requires Before(a, b)
    ensures !Before(b, a)
  {
    if a.rank == b.rank {
      LexAsymmetric(a.name, b.name);
    }
  }

  /** Inserts `x` into a sorted sequence, after everything that is not greater. */
  function Insert<T>(s: seq<Keyed<T>>, x: Keyed<T>): seq<Keyed<T>> {
    if s != [] && Before(x, s[|s| - 1]) then Insert(s[..|s| - 1], x) + [s[|s| - 1]] else s + [x]
  }

  function Sort<T>(s: seq<Keyed<T>>): seq<Keyed<T>> {
    if s == [] then [] else Insert(Sort(s[..|s| - 1]), s[|s| - 1])
  }

  lemma {:induction false} InsertSorts<T>(s: seq<Keyed<T>>, x: Keyed<T>)
    requires Sorted(s)
    ensures Sorted(Insert(s, x)) && multiset(Insert(s, x)) == multiset(s) + multiset{x}
  {
    hide Before, LexLess;
    if s != [] && Before(x, s[|s| - 1]) {
      var n := |s| - 1;
      var init := Insert(s[..n], x);
      InsertSorts(s[..n], x);
      assert s == s[..n] + [s[n]];
      BeforeAsymmetric(x, s[n]);
      forall i | 0 <= i < |init| ensures !Before(s[n], init[i]) {
        assert init[i] in multiset(init);
        if init[i] != x {
          assert init[i] in s[..n];
        }
      }
    } else if s != [] {
      var n := |s| - 1;
      forall i | 0 <= i < |s| ensures !Before(x, s[i]) {
        if i < n {
          NotBeforeTransitive(s[i], s[n], x);
        }
      }
    }
  }

  /** `sorted` returns the same items in ascending order of their keys. */
  lemma {:induction false} SortSorts<T>(s: seq<Keyed<T>>)
    ensures Sorted(Sort(s)) && multiset(Sort(s)) == multiset(s) && |Sort(s)| == |s|
    ensures forall x :: x in Sort(s) <==> x in s
  {
    hide Before, Insert;
    if s == [] {
    } else {
      var n := |s| - 1;
      SortSorts(s[..n]);
      InsertSorts(Sort(s[..n]), s[n]);
      assert s == s[..n] + [s[n]];
      assert |Sort(s)| == |multiset(Sort(s))| == |multiset(s)|;
    }
    forall x ensures x in Sort(s) <==> x in s {
      assert x in multiset(Sort(s)) <==> x in multiset(s);
    }
  }

  ghost predicate Ascending<T>(s: seq<Keyed<T>>) {
    forall i, j | 0 <= i < j < |s| :: Before(s[i], s[j])
  }

  lemma SomeMember<T>(s: seq<T>) returns (x: T)
    requires s != []
    ensures x in s
  {
    x := s[0];
  }

  /** Items with pairwise different keys have one ascending order. */
  lemma {:induction false} AscendingIsUnique<T>(s: seq<Keyed<T>>, t: seq<Keyed<T>>)
    requires Ascending(s) && Ascending(t) && forall x :: x in s <==> x in t
    ensures s == t
  {
    if s == [] {
      if t != [] {
        var x := SomeMember(t);
      }
    } else {
      assert s[0] in t;
      var i :| 0 <= i < |t| && t[i] == s[0];
      assert t[0] in s;
      var j :| 0 <= j < |s| && s[j] == t[0];
      if i > 0 && j > 0 {
        BeforeAsymmetric(t[0], t[i]);
      }
      assert s[0] == t[0];
      forall x ensures x in s[1..] <==> x in t[1..] {
        if x in s[1..] {
          var k :| 1 <= k < |s| && s[k] == x;
          BeforeAsymmetric(s[0], s[k]);
          assert x in t && x != t[0];
        }
        if x in t[1..] {
          var k :| 1 <= k < |t| && t[k] == x;
          BeforeAsymmetric(t[0], t[k]);
          assert x in s && x != s[0];
        }
      }
      AscendingIsUnique(s[1..], t[1..]);
    }
  }
}
