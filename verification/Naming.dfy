/** The meaning of a flattened index: the category key it names on every dimension key. Payloads, stored structures and
    query answers order their dimensions and categories differently; a cell moves correctly between two of them when its
    name does not change, and names determine indexes. */
module Naming {
  import opened Basics
  import opened Index
  import opened Model

  datatype Axis = Axis(key: Key, cats: seq<Key>)

  type Name = map<Key, Key>

  ghost function KeysOf(axes: seq<Axis>): (keys: seq<Key>)
    ensures |keys| == |axes|
  {
    seq(|axes|, i requires 0 <= i < |axes| => axes[i].key)
  }

  ghost predicate WellFormed(axes: seq<Axis>) {
    && (forall i, j :: 0 <= i < j < |axes| ==> axes[i].key != axes[j].key)
    && (forall i :: 0 <= i < |axes| ==> axes[i].cats != [] && Distinct(axes[i].cats))
  }

  ghost function SizesOf(axes: seq<Axis>): (sizes: seq<int>)
    ensures |sizes| == |axes|
  {
    seq(|axes|, i requires 0 <= i < |axes| => |axes[i].cats|)
  }

  /** The number of logical cells. */
  ghost function Count(axes: seq<Axis>): int {
    Product(SizesOf(axes))
  }

  lemma SizesPositive(axes: seq<Axis>)
    requires WellFormed(axes)
    ensures Positive(SizesOf(axes)) && Count(axes) >= 1
  {
    PositiveProduct(SizesOf(axes));
  }

  /** What the first `n` coordinates of a tuple say. */
  ghost function NamesUpTo(axes: seq<Axis>, coords: seq<int>, n: nat): Name
    requires WellFormed(axes) && InCube(coords, SizesOf(axes)) && n <= |axes|
  {
    map i | 0 <= i < n :: axes[i].key := axes[i].cats[coords[i]]
  }

  /** The name of a coordinate tuple. */
  ghost function Names(axes: seq<Axis>, coords: seq<int>): Name
    requires WellFormed(axes) && InCube(coords, SizesOf(axes))
  {
    NamesUpTo(axes, coords, |axes|)
  }

  /** The name of a flattened index. */
  ghost function NameOf(axes: seq<Axis>, index: int): Name
    requires WellFormed(axes) && 0 <= index < Count(axes)
  {
    SizesPositive(axes);
    FlattenOfUnflatten(index, SizesOf(axes));
    Names(axes, Unflatten(index, SizesOf(axes)))
  }

  lemma NamesLookup(axes: seq<Axis>, coords: seq<int>, i: nat)
    requires WellFormed(axes) && InCube(coords, SizesOf(axes)) && i < |axes|
    ensures axes[i].key in Names(axes, coords)
    ensures Names(axes, coords)[axes[i].key] == axes[i].cats[coords[i]]
  {
  }

  lemma NamesInjective(axes: seq<Axis>, c: seq<int>, d: seq<int>)
    requires WellFormed(axes) && InCube(c, SizesOf(axes)) && InCube(d, SizesOf(axes))
    requires Names(axes, c) == Names(axes, d)
    ensures c == d
  {
    forall i | 0 <= i < |axes| ensures c[i] == d[i] {
      NamesLookup(axes, c, i);
      NamesLookup(axes, d, i);
      assert Distinct(axes[i].cats);
    }
  }

  /** One logical cell has one index: naming is injective on the whole cube. */
  lemma NameOfInjective(axes: seq<Axis>, i: int, j: int)
    requires WellFormed(axes) && 0 <= i < Count(axes) && 0 <= j < Count(axes)
    requires NameOf(axes, i) == NameOf(axes, j)
    ensures i == j
  {
    SizesPositive(axes);
    FlattenOfUnflatten(i, SizesOf(axes));
    FlattenOfUnflatten(j, SizesOf(axes));
    NamesInjective(axes, Unflatten(i, SizesOf(axes)), Unflatten(j, SizesOf(axes)));
  }

  lemma NameOfFlatten(axes: seq<Axis>, coords: seq<int>)
    requires WellFormed(axes) && InCube(coords, SizesOf(axes))
    ensures 0 <= Flatten(coords, SizesOf(axes)) < Count(axes)
    ensures NameOf(axes, Flatten(coords, SizesOf(axes))) == Names(axes, coords)
  {
    SizesPositive(axes);
    FlattenInRange(coords, SizesOf(axes));
    UnflattenOfFlatten(coords, SizesOf(axes));
  }

  /** Every axis of `part` is, by key, an axis of `whole` that offers at least the same categories. */
  ghost predicate Within(part: seq<Axis>, whole: seq<Axis>) {
    && Elements(KeysOf(part)) == Elements(KeysOf(whole))
    && forall i, j :: 0 <= i < |part| && 0 <= j < |whole| && part[i].key == whole[j].key
                      ==> Elements(part[i].cats) <= Elements(whole[j].cats)
  }

  /** Two tuples name the same cell when they agree on every pair of axes with the same key. */
  lemma SameNames(a: seq<Axis>, c: seq<int>, b: seq<Axis>, d: seq<int>)
    requires WellFormed(a) && InCube(c, SizesOf(a)) && WellFormed(b) && InCube(d, SizesOf(b))
    requires Elements(KeysOf(a)) == Elements(KeysOf(b))
    requires forall i, j :: 0 <= i < |a| && 0 <= j < |b| && a[i].key == b[j].key ==> a[i].cats[c[i]] == b[j].cats[d[j]]
    ensures Names(a, c) == Names(b, d)
  {
    var m, n := Names(a, c), Names(b, d);
    forall k ensures k in m <==> k in n {
      assert k in m <==> k in Elements(KeysOf(a)) by { KeyMember(a, k); }
      assert k in n <==> k in Elements(KeysOf(b)) by { KeyMember(b, k); }
    }
    forall k | k in m ensures m[k] == n[k] {
      var i :| 0 <= i < |a| && a[i].key == k;
      KeyMember(b, k);
      var j :| 0 <= j < |b| && b[j].key == k;
    }
  }

  lemma KeyMember(axes: seq<Axis>, k: Key)
    ensures k in Elements(KeysOf(axes)) <==> exists i :: 0 <= i < |axes| && axes[i].key == k
  {
    if i :| 0 <= i < |axes| && axes[i].key == k {
      assert KeysOf(axes)[i] == k;
    }
  }

  ghost function PositionOf<T>(s: seq<T>, x: T): (i: int)
    ensures x in s ==> 0 <= i < |s| && s[i] == x
  {
    if x in s then var i :| 0 <= i < |s| && s[i] == x; i else 0
  }

  // Placing a name. Both remapCellIndex and ResolveSelection start from all-zero stored coordinates and place one
  // category after another.

  /** The coordinates in `axes` of everything `name` says, 0 on the axes it does not mention. */
  ghost function Placed(axes: seq<Axis>, name: Name): (coords: seq<int>)
    ensures |coords| == |axes|
  {
    seq(|axes|, j requires 0 <= j < |axes| =>
        if axes[j].key in name then PositionOf(axes[j].cats, name[axes[j].key]) else 0)
  }

  /** Placing one more category writes one coordinate, which was still 0. */
  lemma PlacedStep(axes: seq<Axis>, name: Name, j: nat, v: int)
    requires WellFormed(axes) && j < |axes| && axes[j].key !in name && 0 <= v < |axes[j].cats|
    ensures Placed(axes, name)[j] == 0
    ensures Placed(axes, name[axes[j].key := axes[j].cats[v]]) == Placed(axes, name)[j := v]
  {
    assert Distinct(axes[j].cats);
    var more := name[axes[j].key := axes[j].cats[v]];
    forall i | 0 <= i < |axes| ensures Placed(axes, more)[i] == Placed(axes, name)[j := v][i] {
      assert i != j ==> axes[i].key != axes[j].key;
    }
  }

  lemma NamesStep(axes: seq<Axis>, coords: seq<int>, n: nat)
    requires WellFormed(axes) && InCube(coords, SizesOf(axes)) && n < |axes|
    ensures axes[n].key !in NamesUpTo(axes, coords, n)
    ensures NamesUpTo(axes, coords, n + 1) == NamesUpTo(axes, coords, n)[axes[n].key := axes[n].cats[coords[n]]]
  {
  }

  lemma OfferedCategory(part: seq<Axis>, whole: seq<Axis>, c: seq<int>, n: nat, j: nat)
    requires WellFormed(part) && Within(part, whole) && InCube(c, SizesOf(part)) && n <= |part| && j < |whole|
    ensures whole[j].key in NamesUpTo(part, c, n) ==> NamesUpTo(part, c, n)[whole[j].key] in whole[j].cats
    ensures n == |part| ==> whole[j].key in NamesUpTo(part, c, n)
  {
    KeyMember(whole, whole[j].key);
    KeyMember(part, whole[j].key);
    var i :| 0 <= i < |part| && part[i].key == whole[j].key;
    assert part[i].cats[c[i]] in Elements(part[i].cats);
  }

  /** At every step the coordinates placed so far are inside the cube. */
  lemma PlacedInCube(part: seq<Axis>, whole: seq<Axis>, c: seq<int>, n: nat)
    requires WellFormed(part) && WellFormed(whole) && Within(part, whole) && InCube(c, SizesOf(part)) && n <= |part|
    ensures InCube(Placed(whole, NamesUpTo(part, c, n)), SizesOf(whole))
  {
    forall j | 0 <= j < |whole| ensures 0 <= Placed(whole, NamesUpTo(part, c, n))[j] < |whole[j].cats| {
      OfferedCategory(part, whole, c, n, j);
    }
  }

  /** Once every coordinate has been placed, the tuple carries the same name. */
  lemma PlacedAll(part: seq<Axis>, whole: seq<Axis>, c: seq<int>)
    requires WellFormed(part) && WellFormed(whole) && Within(part, whole) && InCube(c, SizesOf(part))
    ensures InCube(Placed(whole, Names(part, c)), SizesOf(whole))
    ensures Names(whole, Placed(whole, Names(part, c))) == Names(part, c)
  {
    var m := Names(part, c);
    PlacedInCube(part, whole, c, |part|);
    var d := Placed(whole, m);
    forall j | 0 <= j < |whole| ensures whole[j].key in m && whole[j].cats[d[j]] == m[whole[j].key] {
      OfferedCategory(part, whole, c, |part|, j);
    }
    SameNames(whole, d, part, c);
  }

  /** The index that carries a name, 0 when none does. By NameOfInjective it is the only one. */
  ghost function IndexNamed(axes: seq<Axis>, name: Name): (index: int)
    requires WellFormed(axes)
  {
    if exists s :: 0 <= s < Count(axes) && NameOf(axes, s) == name
    then var s :| 0 <= s < Count(axes) && NameOf(axes, s) == name; s else 0
  }

  /** Every cell of `part` is a cell of `whole`, at the index that carries its name. */
  lemma NameWithin(part: seq<Axis>, whole: seq<Axis>, k: int)
    requires WellFormed(part) && WellFormed(whole) && Within(part, whole) && 0 <= k < Count(part)
    ensures 0 <= IndexNamed(whole, NameOf(part, k)) < Count(whole)
    ensures NameOf(whole, IndexNamed(whole, NameOf(part, k))) == NameOf(part, k)
  {
    SizesPositive(part);
    FlattenOfUnflatten(k, SizesOf(part));
    var d := Placed(whole, NameOf(part, k));
    PlacedAll(part, whole, Unflatten(k, SizesOf(part)));
    NameOfFlatten(whole, d);
    var s := Flatten(d, SizesOf(whole));
    assert NameOf(whole, s) == NameOf(part, k);
  }

  lemma IndexNamedUnique(axes: seq<Axis>, s: int)
    requires WellFormed(axes) && 0 <= s < Count(axes)
    ensures IndexNamed(axes, NameOf(axes, s)) == s
  {
    var t := IndexNamed(axes, NameOf(axes, s));
    assert 0 <= t < Count(axes) && NameOf(axes, t) == NameOf(axes, s);
    NameOfInjective(axes, s, t);
  }

  /** Decompose in one structure, place the categories in the other, recompose: that is the index with the same name. */
  lemma PlacedIsNamed(part: seq<Axis>, whole: seq<Axis>, k: int)
    requires WellFormed(part) && WellFormed(whole) && Within(part, whole) && 0 <= k < Count(part)
    ensures Flatten(Placed(whole, NameOf(part, k)), SizesOf(whole)) == IndexNamed(whole, NameOf(part, k))
    ensures 0 <= IndexNamed(whole, NameOf(part, k)) < Count(whole)
  {
    SizesPositive(part);
    FlattenOfUnflatten(k, SizesOf(part));
    PlacedAll(part, whole, Unflatten(k, SizesOf(part)));
    NameOfFlatten(whole, Placed(whole, NameOf(part, k)));
    IndexNamedUnique(whole, Flatten(Placed(whole, NameOf(part, k)), SizesOf(whole)));
  }

  /** A structure describes the cells of another one in another order. */
  ghost predicate SameCube(a: seq<Axis>, b: seq<Axis>) {
    Within(a, b) && Within(b, a)
  }

  /** Two orders of one cube have equally many cells. Proved by pigeonhole on names, not by multiplying. */
  lemma SameCount(a: seq<Axis>, b: seq<Axis>)
    requires WellFormed(a) && WellFormed(b) && SameCube(a, b)
    ensures Count(a) == Count(b)
  {
    CountAtMost(a, b);
    CountAtMost(b, a);
  }

  lemma CountAtMost(part: seq<Axis>, whole: seq<Axis>)
    requires WellFormed(part) && WellFormed(whole) && Within(part, whole)
    ensures Count(part) <= Count(whole)
  {
    SizesPositive(part);
    SizesPositive(whole);
    var places := seq(Count(part), k requires 0 <= k < Count(part) => IndexNamed(whole, NameOf(part, k)));
    forall i | 0 <= i < |places| ensures places[i] in Below(Count(whole)) {
      NameWithin(part, whole, i);
    }
    forall i, j | 0 <= i < j < |places| ensures places[i] != places[j] {
      NameWithin(part, whole, i);
      NameWithin(part, whole, j);
      if places[i] == places[j] {
        NameOfInjective(part, i, j);
      }
    }
    DistinctSize(places);
    SubsetSize(Elements(places), Below(Count(whole)));
  }
}
