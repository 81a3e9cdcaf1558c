/** Small result types and helpers on sequences, sets and maps, shared across the project. */
module Wrappers {

  datatype Option<+T> = None | Some(value: T)

  /** A sequence without repeated elements. */
  ghost predicate NoDup<T>(s: seq<T>) {
    forall i, j :: 0 <= i < j < |s| ==> s[i] != s[j]
  }

  /** The elements of a sequence, as a set. */
  function Elements<T>(s: seq<T>): set<T>
  {
    set x | x in s
  }

  /** How often `x` occurs in `s`. */
  function Occurrences<T(==)>(s: seq<T>, x: T): (n: nat)
    ensures n > 0 <==> x in s
  {
    if s == [] then 0 else (if s[0] == x then 1 else 0) + Occurrences(s[1..], x)
  }

  lemma {:induction false} OccurrencesAppend<T>(s: seq<T>, t: seq<T>, x: T)
    ensures Occurrences(s + t, x) == Occurrences(s, x) + Occurrences(t, x)
  {
    if s == [] {
      assert s + t == t;
    } else {
      assert (s + t)[1..] == s[1..] + t;
      OccurrencesAppend(s[1..], t, x);
    }
  }

  /** A duplicate-free sequence has as many elements as its set. */
  lemma {:induction false} NoDupCardinality<T>(s: seq<T>)
    requires NoDup(s)
    ensures |Elements(s)| == |s|
  {
    if s != [] {
      var rest := s[1..];
      assert Elements(s) == {s[0]} + Elements(rest);
      assert s[0] !in rest;
      NoDupCardinality(rest);
    }
  }

  lemma {:induction false} ElementsCardinality<T>(s: seq<T>)
    ensures |Elements(s)| <= |s|
  {
    if s != [] {
      ElementsCardinality(s[1..]);
      assert Elements(s) == {s[0]} + Elements(s[1..]);
    }
  }

  lemma {:induction false} SubsetCardinality<T>(a: set<T>, b: set<T>)
    requires a <= b
    ensures |a| <= |b|
  {
    if a != {} {
      var x :| x in a;
      SubsetCardinality(a - {x}, b - {x});
    }
  }

  lemma AddedCardinality<T>(x: T, s: set<T>)
    ensures |{x} + s| == |s| + if x in s then 0 else 1
  {
    if x in s {
      assert {x} + s == s;
    }
  }

  lemma Choose<T>(s: set<T>) returns (x: T)
    requires s != {}
    ensures x in s
  {
    x :| x in s;
  }

  /** As many elements as positions: nothing is repeated. */
  lemma {:induction false} CardinalityNoDup<T>(s: seq<T>)
    requires |Elements(s)| == |s|
    ensures NoDup(s)
  {
    if s != [] {
      var rest := s[1..];
      assert Elements(s) == {s[0]} + Elements(rest);
      ElementsCardinality(rest);
      AddedCardinality(s[0], Elements(rest));
      assert s[0] !in rest;
      CardinalityNoDup(rest);
      forall i, j | 0 <= i < j < |s| ensures s[i] != s[j] {
        if i == 0 {
          assert s[j] == rest[j - 1];
        } else {
          assert s[i] == rest[i - 1] && s[j] == rest[j - 1];
        }
      }
    }
  }

  lemma NoDupExactly<T>(s: seq<T>)
    ensures NoDup(s) <==> |Elements(s)| == |s|
  {
    if NoDup(s) {
      NoDupCardinality(s);
    }
    if |Elements(s)| == |s| {
      CardinalityNoDup(s);
    }
  }

  lemma ElementsOneMore<T>(s: seq<T>, x: T)
    ensures Elements(s + [x]) == Elements(s) + {x}
    ensures NoDup(s + [x]) <==> NoDup(s) && x !in s
  {
    var all := s + [x];
    assert all[|s|] == x;
    if NoDup(all) {
      forall i, j | 0 <= i < j < |s| ensures s[i] != s[j] {
        assert all[i] != all[j];
      }
      forall i | 0 <= i < |s| ensures s[i] != x {
        assert all[i] != all[|s|];
      }
    }
  }

  lemma NoDupConcat<T>(a: seq<T>, b: seq<T>)
    ensures NoDup(a + b) <==> NoDup(a) && NoDup(b) && forall x :: x in a ==> x !in b
  {
    var all := a + b;
    assert forall i :: 0 <= i < |b| ==> all[|a| + i] == b[i];
    if NoDup(all) {
      forall i, j | 0 <= i < j < |a| ensures a[i] != a[j] {
        assert all[i] != all[j];
      }
      forall i, j | 0 <= i < j < |b| ensures b[i] != b[j] {
        assert all[|a| + i] != all[|a| + j];
      }
      forall x | x in a ensures x !in b {
        var i :| 0 <= i < |a| && a[i] == x;
        forall j | 0 <= j < |b| ensures b[j] != x {
          assert all[i] != all[|a| + j];
        }
      }
    }
    if NoDup(a) && NoDup(b) && forall x :: x in a ==> x !in b {
      forall i, j | 0 <= i < j < |all| ensures all[i] != all[j] {
        if i < |a| <= j {
          assert all[i] in a && all[j] in b;
        }
      }
    }
  }

  /** A duplicate-free choice among given elements is no longer than they are. */
  lemma ChoiceLength<T>(all: seq<T>, some: seq<T>)
    requires NoDup(some) && Elements(some) <= Elements(all)
    ensures |some| <= |all|
  {
    NoDupCardinality(some);
    ElementsCardinality(all);
    SubsetCardinality(Elements(some), Elements(all));
  }

  /** `dict.fromkeys(keys, value)`, for keys that are never missing. */
  function FromKeys<K(==,!new), V>(keys: seq<K>, value: V): (m: map<Option<K>, V>)
    ensures forall k :: k in m <==> k.Some? && k.value in keys
    ensures forall k :: k in m ==> m[k] == value
  {
    if keys == [] then map[] else FromKeys(keys[1..], value)[Some(keys[0]) := value]
  }

  /** A key that is set first and then to the common value is one more of the keys. */
  lemma FromKeysExtends<K(!new), V>(keys: seq<K>, key: K, first: V, value: V)
    ensures FromKeys(keys + [key], value) == FromKeys(keys, value)[Some(key) := first][Some(key) := value]
  {}

  lemma Regroup<T>(s: seq<T>, p: seq<T>, a: T, b: T)
    ensures s + (p + [a, b]) == s + p + [a] + [b]
  {}

  function Sum(s: seq<int>): int {
    if s == [] then 0 else s[0] + Sum(s[1..])
  }

  lemma {:induction false} SumOfPositive(s: seq<int>)
    requires forall i :: 0 <= i < |s| ==> s[i] > 0
    ensures Sum(s) >= 0
  {
    if s != [] {
      SumOfPositive(s[1..]);
    }
  }
}
