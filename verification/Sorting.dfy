/** Sorting by name, as `list.sort(key=...)` on strings does it: stable, by code points. */
module Sorting {
  import IsoTime

  /** In order: no later name comes before an earlier one. */
  predicate Sorted(names: seq<string>) {
    forall i, j :: 0 <= i < j < |names| ==> !IsoTime.LexLess(names[j], names[i])
  }

  function Names<T>(s: seq<T>, key: T -> string): seq<string> {
    seq(|s|, i requires 0 <= i < |s| => key(s[i]))
  }

  function Insert<T>(x: T, s: seq<T>, key: T -> string): (r: seq<T>)
    ensures |r| == |s| + 1
  {
    if s == [] || IsoTime.LexLess(key(x), key(s[0])) then [x] + s else [s[0]] + Insert(x, s[1..], key)
  }

  function SortByName<T>(s: seq<T>, key: T -> string): (r: seq<T>)
    ensures |r| == |s|
  {
    if s == [] then [] else Insert(s[|s| - 1], SortByName(s[..|s| - 1], key), key)
  }

  lemma {:induction false} LexAsymmetric(a: string, b: string)
    requires IsoTime.LexLess(a, b)
    ensures !IsoTime.LexLess(b, a)
  {
    if a != [] && b != [] && a[0] == b[0] {
      LexAsymmetric(a[1..], b[1..]);
    }
  }

  lemma {:induction false} NotAfterTransitive(a: string, b: string, c: string)
    requires !IsoTime.LexLess(b, a) && !IsoTime.LexLess(c, b)
    ensures !IsoTime.LexLess(c, a)
  {
    if a != [] && b != [] && c != [] && a[0] == b[0] == c[0] {
      NotAfterTransitive(a[1..], b[1..], c[1..]);
    }
  }

  lemma {:induction false} InsertSorts<T>(x: T, s: seq<T>, key: T -> string)
    requires Sorted(Names(s, key))
    ensures Sorted(Names(Insert(x, s, key), key)) && multiset(Insert(x, s, key)) == multiset(s) + multiset{x}
  {
    if s == [] {
    } else if IsoTime.LexLess(key(x), key(s[0])) {
      LexAsymmetric(key(x), key(s[0]));
      forall j | 0 <= j < |s|
        ensures !IsoTime.LexLess(key(s[j]), key(x))
      {
        if j > 0 {
          assert !IsoTime.LexLess(Names(s, key)[j], Names(s, key)[0]);
          NotAfterTransitive(key(x), key(s[0]), key(s[j]));
        }
      }
      SortedCons(x, s, key);
    } else {
      assert s == [s[0]] + s[1..];
      assert Names(s[1..], key) == Names(s, key)[1..];
      InsertSorts(x, s[1..], key);
      var rest := Insert(x, s[1..], key);
      forall j | 0 <= j < |rest|
        ensures !IsoTime.LexLess(key(rest[j]), key(s[0]))
      {
        assert rest[j] in multiset(rest);
        if rest[j] != x {
          assert rest[j] in s[1..];
          var m :| 0 <= m < |s[1..]| && s[1..][m] == rest[j];
          assert !IsoTime.LexLess(Names(s, key)[m + 1], Names(s, key)[0]);
        }
      }
      SortedCons(s[0], rest, key);
    }
  }

  lemma SortedCons<T>(x: T, s: seq<T>, key: T -> string)
    requires Sorted(Names(s, key)) && forall j :: 0 <= j < |s| ==> !IsoTime.LexLess(key(s[j]), key(x))
    ensures Sorted(Names([x] + s, key))
  {
    var names := Names([x] + s, key);
    forall i, j | 0 <= i < j < |names|
      ensures !IsoTime.LexLess(names[j], names[i])
    {
      assert names[j] == key(s[j - 1]);
      if i > 0 {
        assert !IsoTime.LexLess(Names(s, key)[j - 1], Names(s, key)[i - 1]);
      }
    }
  }

  /** The result is in order and holds exactly what was there. */
  lemma {:induction false} SortSorts<T>(s: seq<T>, key: T -> string)
    ensures Sorted(Names(SortByName(s, key), key)) && multiset(SortByName(s, key)) == multiset(s)
  {
    if s != [] {
      var n := |s| - 1;
      SortSorts(s[..n], key);
      InsertSorts(s[n], SortByName(s[..n], key), key);
      assert s == s[..n] + [s[n]];
    }
  }

  lemma {:induction false} TwoOccurrences<T>(s: seq<T>, i: nat, j: nat)
    requires i < j < |s| && s[i] == s[j]
    ensures multiset(s)[s[i]] >= 2
  {
    assert s == s[..j] + s[j..];
    assert s[..j][i] in s[..j] && s[j..][0] in s[j..];
    assert multiset(s) == multiset(s[..j]) + multiset(s[j..]);
  }

  predicate DistinctNames<T>(s: seq<T>, key: T -> string) {
    forall i, j :: 0 <= i < j < |s| ==> key(s[i]) != key(s[j])
  }

  lemma {:induction false} OneOccurrence<T>(s: seq<T>, x: T, key: T -> string)
    requires DistinctNames(s, key)
    ensures multiset(s)[x] <= 1
  {
    if s != [] {
      var n := |s| - 1;
      assert s == s[..n] + [s[n]];
      OneOccurrence(s[..n], x, key);
      if s[n] == x {
        assert x !in s[..n];
        assert multiset(s[..n])[x] == 0;
      }
    }
  }

  /** A permutation of entries with distinct names has distinct names, and the same names. */
  lemma PermutedNames<T>(s: seq<T>, t: seq<T>, key: T -> string)
    requires DistinctNames(s, key) && multiset(s) == multiset(t)
    ensures DistinctNames(t, key)
    ensures forall name :: name in Names(t, key) <==> name in Names(s, key)
  {
    forall x | x in s
      ensures x in t
    {
      assert x in multiset(s);
    }
    forall x | x in t
      ensures x in s
    {
      assert x in multiset(t);
    }
    forall i, j | 0 <= i < j < |t|
      ensures key(t[i]) != key(t[j])
    {
      assert t[i] in s && t[j] in s;
      if t[i] == t[j] {
        TwoOccurrences(t, i, j);
        OneOccurrence(s, t[i], key);
      }
    }
    forall name
      ensures name in Names(t, key) <==> name in Names(s, key)
    {
      if i :| 0 <= i < |t| && Names(t, key)[i] == name {
        assert t[i] in s;
        var j :| 0 <= j < |s| && s[j] == t[i];
        assert Names(s, key)[j] == name;
      }
      if i :| 0 <= i < |s| && Names(s, key)[i] == name {
        assert s[i] in t;
        var j :| 0 <= j < |t| && t[j] == s[i];
        assert Names(t, key)[j] == name;
      }
    }
  }
}
