/** Vocabulary shared by every module: Go's byte strings and 64-bit integers, results, and finite counting. */
module Basics {
  newtype byte = x: int | 0 <= x < 256

  /** A Go string: its UTF-8 bytes, which is what `<`, `==` and map keys look at. */
  type Bytes = seq<byte>

  datatype Option<+T> = None | Some(value: T)

  datatype Result<+T, +E> = Ok(value: T) | Err(error: E)

  const MAX_INT64: int := 0x7FFF_FFFF_FFFF_FFFF

  /** The int64 that Go keeps of an exact integer: two's-complement wrap-around. */
  function Wrap64(x: int): (r: int)
    ensures -MAX_INT64 - 1 <= r <= MAX_INT64
    ensures -MAX_INT64 - 1 <= x <= MAX_INT64 ==> r == x
  {
    (x + MAX_INT64 + 1) % (2 * (MAX_INT64 + 1)) - MAX_INT64 - 1
  }

  predicate Distinct<T(==)>(s: seq<T>) {
    forall i, j :: 0 <= i < j < |s| ==> s[i] != s[j]
  }

  lemma DistinctSnoc<T>(s: seq<T>, x: T)
    ensures Distinct(s + [x]) <==> Distinct(s) && x !in s
  {
    var t := s + [x];
    if Distinct(t) {
      forall i, j | 0 <= i < j < |s| ensures s[i] != s[j] {
        assert t[i] != t[j];
      }
      forall i | 0 <= i < |s| ensures s[i] != x {
        assert t[i] != t[|s|];
      }
    }
  }

  ghost function Elements<T>(s: seq<T>): set<T> {
    set x | x in s
  }

  lemma Inhabited<T>(s: set<T>) returns (x: T)
    requires s != {}
    ensures x in s
  {
    x :| x in s;
  }

  /** The part of a map that Go has ranged over so far. */
  ghost predicate PartOf<K(!new), V(!new)>(part: map<K, V>, whole: map<K, V>, remaining: set<K>) {
    && remaining <= whole.Keys && part.Keys == whole.Keys - remaining
    && forall k :: k in part ==> part[k] == whole[k]
  }

  lemma PartStep<K(!new), V(!new)>(part: map<K, V>, whole: map<K, V>, remaining: set<K>, k: K)
    requires PartOf(part, whole, remaining) && k in remaining
    ensures PartOf(part[k := whole[k]], whole, remaining - {k})
  {
  }

  lemma PartIsWhole<K(!new), V(!new)>(part: map<K, V>, whole: map<K, V>)
    requires PartOf(part, whole, {})
    ensures part == whole
  {
    assert part.Keys == whole.Keys;
  }

  ghost function Below(n: nat): (places: set<int>)
    ensures forall i :: i in places <==> 0 <= i < n
    ensures |places| == n
  {
    if n == 0 then {} else Below(n - 1) + {n - 1}
  }

  lemma {:induction false} DistinctSize<T>(s: seq<T>)
    requires Distinct(s)
    ensures |Elements(s)| == |s|
  {
    if s == [] {
      assert Elements(s) == {};
    } else {
      var init := s[..|s| - 1];
      DistinctSize(init);
      assert s == init + [s[|s| - 1]];
      assert Elements(s) == Elements(init) + {s[|s| - 1]};
    }
  }

  lemma SubsetOfSameSize<T>(a: set<T>, b: set<T>)
    requires a <= b && |a| >= |b|
    ensures a == b
  {
    if a != b {
      var x :| x in b && x !in a;
      SubsetSize(a, b - {x});
    }
  }

  lemma {:induction false} SubsetSize<T>(a: set<T>, b: set<T>)
    requires a <= b
    ensures |a| <= |b|
  {
    if a != {} {
      var x :| x in a;
      SubsetSize(a - {x}, b - {x});
    }
  }

  /** Pigeonhole: as many different values as there are places, all of them among those places, leave no place empty. */
  lemma Pigeonhole<T>(s: seq<T>, places: set<T>)
    requires Distinct(s) && |s| >= |places|
    requires forall x :: x in s ==> x in places
    ensures Elements(s) == places
  {
    DistinctSize(s);
    SubsetOfSameSize(Elements(s), places);
  }
}
