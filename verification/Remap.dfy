/** The stored form of a payload: remapReplacement and remapCellIndex (internal/domain/payload.go). */
module Remap {
  import opened Basics
  import opened Index
  import opened Ordering
  import opened Model
  import opened Naming
  import opened Structure

  // Stored structure.

  function AxisOf(dimension: Dimension): (axis: Axis)
    ensures |axis.cats| == |dimension.categories|
  {
    Axis(dimension.code.key,
         seq(|dimension.categories|, j requires 0 <= j < |dimension.categories| => dimension.categories[j].code.key))
  }

  function AxesOf(dimensions: seq<Dimension>): (axes: seq<Axis>)
    ensures |axes| == |dimensions|
  {
    seq(|dimensions|, i requires 0 <= i < |dimensions| => AxisOf(dimensions[i]))
  }

  /** Positions say where a dimension or category stands. */
  predicate WellPlaced(dimensions: seq<Dimension>) {
    forall i :: 0 <= i < |dimensions| ==>
      && dimensions[i].position == i
      && forall j :: 0 <= j < |dimensions[i].categories| ==> dimensions[i].categories[j].position == j
  }

  /** Bytewise ascending keys on both levels. */
  ghost predicate Sorted(axes: seq<Axis>) {
    && Ascending(KeysOf(axes), ByBytes())
    && forall i :: 0 <= i < |axes| ==> axes[i].cats != [] && Ascending(axes[i].cats, ByBytes())
  }

  /** The keys as they stand, first differing byte first, without the sort's own order. */
  ghost predicate KeysAscend(dimensions: seq<Dimension>) {
    && (forall i, j :: 0 <= i < j < |dimensions| ==> Earlier(dimensions[i].code.key, dimensions[j].code.key))
    && (forall d :: 0 <= d < |dimensions| ==> CategoryKeysAscend(dimensions[d].categories))
  }

  ghost predicate CategoryKeysAscend(categories: seq<Category>) {
    forall i, j :: 0 <= i < j < |categories| ==> Earlier(categories[i].code.key, categories[j].code.key)
  }

  lemma SortedAscends(dimensions: seq<Dimension>)
    requires Sorted(AxesOf(dimensions))
    ensures KeysAscend(dimensions)
  {
    var axes := AxesOf(dimensions);
    forall i, j | 0 <= i < j < |dimensions| ensures Earlier(dimensions[i].code.key, dimensions[j].code.key) {
      assert ByBytes()(KeysOf(axes)[i], KeysOf(axes)[j]);
      LessIffEarlier(dimensions[i].code.key, dimensions[j].code.key);
    }
    forall d | 0 <= d < |dimensions| ensures CategoryKeysAscend(dimensions[d].categories) {
      assert axes[d] == AxisOf(dimensions[d]);
      CategoriesAscend(dimensions[d]);
    }
  }

  lemma CategoriesAscend(dimension: Dimension)
    requires Ascending(AxisOf(dimension).cats, ByBytes())
    ensures CategoryKeysAscend(dimension.categories)
  {
    var categories := dimension.categories;
    forall i, j | 0 <= i < j < |categories| ensures Earlier(categories[i].code.key, categories[j].code.key) {
      assert ByBytes()(AxisOf(dimension).cats[i], AxisOf(dimension).cats[j]);
      LessIffEarlier(categories[i].code.key, categories[j].code.key);
    }
  }

  lemma SortedIsWellFormed(axes: seq<Axis>)
    requires Sorted(axes)
    ensures WellFormed(axes)
  {
    BytesOrder();
    var keys := KeysOf(axes);
    forall i, j | 0 <= i < j < |axes| ensures axes[i].key != axes[j].key {
      assert ByBytes()(keys[i], keys[j]);
    }
  }

  /** Key order is a canonical form: a cube has one sorted structure, whatever order it was submitted in. */
  lemma SortedUnique(a: seq<Axis>, b: seq<Axis>)
    requires Sorted(a) && Sorted(b) && SameCube(a, b)
    ensures a == b
  {
    BytesOrder();
    SameElements(KeysOf(a), KeysOf(b));
    AscendingUnique(KeysOf(a), KeysOf(b), ByBytes());
    forall i | 0 <= i < |a| ensures a[i] == b[i] {
      assert KeysOf(a)[i] == KeysOf(b)[i];
      SameElements(a[i].cats, b[i].cats);
      AscendingUnique(a[i].cats, b[i].cats, ByBytes());
    }
  }

  lemma SameElements<T>(s: seq<T>, t: seq<T>)
    requires Elements(s) == Elements(t)
    ensures forall x :: x in s <==> x in t
  {
    forall x ensures x in s <==> x in t {
      assert x in s <==> x in Elements(s);
      assert x in t <==> x in Elements(t);
    }
  }

  function ByCodeKey(): (Code, Code) -> bool {
    (a: Code, b: Code) => Less(a.key, b.key)
  }

  function ByDimensionKey(): (Dimension, Dimension) -> bool {
    (a: Dimension, b: Dimension) => Less(a.code.key, b.code.key)
  }

  lemma KeyOrders()
    ensures StrictOrder(ByCodeKey()) && StrictOrder(ByDimensionKey())
  {
    BytesOrder();
    forall a: Code, b: Code, c: Code | Less(a.key, b.key) && Less(b.key, c.key) ensures Less(a.key, c.key) {
      LessTransitive(a.key, b.key, c.key);
    }
    forall a: Dimension, b: Dimension, c: Dimension | Less(a.code.key, b.code.key) && Less(b.code.key, c.code.key)
      ensures Less(a.code.key, c.code.key)
    {
      LessTransitive(a.code.key, b.code.key, c.code.key);
    }
    forall a: Code ensures !Less(a.key, a.key) {
      LessIrreflexive(a.key);
    }
    forall a: Dimension ensures !Less(a.code.key, a.code.key) {
      LessIrreflexive(a.code.key);
    }
  }

  /** One dimension with its categories in key order, not yet placed among the others. */
  function StoredDimension(dimension: RequestDimension): Dimension {
    var categories := Sort(dimension.categories, ByCodeKey());
    Dimension(dimension.code, 0, seq(|categories|, j requires 0 <= j < |categories| => Category(categories[j], j)))
  }

  function Unplaced(dimensions: seq<RequestDimension>): (stored: seq<Dimension>)
    ensures |stored| == |dimensions|
  {
    seq(|dimensions|, i requires 0 <= i < |dimensions| => StoredDimension(dimensions[i]))
  }

  function Numbered(dimensions: seq<Dimension>): (placed: seq<Dimension>)
    ensures |placed| == |dimensions|
  {
    seq(|dimensions|, i requires 0 <= i < |dimensions| => dimensions[i].(position := i))
  }

  /** The stored structure of a payload. */
  function StoredDimensions(dimensions: seq<RequestDimension>): seq<Dimension> {
    Numbered(Sort(Unplaced(dimensions), ByDimensionKey()))
  }

  lemma CategoriesSorted(codes: seq<Code>)
    requires forall i, j :: 0 <= i < j < |codes| ==> codes[i].key != codes[j].key
    ensures Ascending(Sort(codes, ByCodeKey()), ByCodeKey())
  {
    KeyOrders();
    forall i, j | 0 <= i < j < |codes| ensures ByCodeKey()(codes[i], codes[j]) || ByCodeKey()(codes[j], codes[i]) {
      LessTotal(codes[i].key, codes[j].key);
    }
    SortAscending(codes, ByCodeKey());
  }

  lemma StoredCategories(dimension: RequestDimension)
    requires AxisOfRequest(dimension).cats != [] && Distinct(AxisOfRequest(dimension).cats)
    ensures AxisOf(StoredDimension(dimension)).cats != []
    ensures Ascending(AxisOf(StoredDimension(dimension)).cats, ByBytes())
    ensures Elements(AxisOf(StoredDimension(dimension)).cats) == Elements(AxisOfRequest(dimension).cats)
  {
    var codes, keys := dimension.categories, AxisOfRequest(dimension).cats;
    forall i, j | 0 <= i < j < |codes| ensures codes[i].key != codes[j].key {
      assert keys[i] != keys[j];
    }
    CategoriesSorted(codes);
    SortContents(codes, ByCodeKey());
    SortElements(codes, ByCodeKey());
    var sorted, stored := Sort(codes, ByCodeKey()), AxisOf(StoredDimension(dimension)).cats;
    assert forall j :: 0 <= j < |sorted| ==> stored[j] == sorted[j].key;
    KeysRearranged(codes, keys, sorted, stored);
    forall i, j | 0 <= i < j < |stored| ensures ByBytes()(stored[i], stored[j]) {
      assert ByCodeKey()(sorted[i], sorted[j]);
    }
  }

  lemma KeysRearranged(codes: seq<Code>, keys: seq<Key>, sorted: seq<Code>, stored: seq<Key>)
    requires |codes| == |keys| && forall i :: 0 <= i < |codes| ==> keys[i] == codes[i].key
    requires |sorted| == |stored| && forall i :: 0 <= i < |sorted| ==> stored[i] == sorted[i].key
    requires forall c :: c in sorted <==> c in codes
    ensures Elements(stored) == Elements(keys)
  {
    forall k | k in stored ensures k in keys {
      var j :| 0 <= j < |stored| && stored[j] == k;
      assert sorted[j] in codes;
      var i :| 0 <= i < |codes| && codes[i] == sorted[j];
      assert keys[i] == k;
    }
    forall k | k in keys ensures k in stored {
      var i :| 0 <= i < |keys| && keys[i] == k;
      assert codes[i] in sorted;
      var j :| 0 <= j < |sorted| && sorted[j] == codes[i];
      assert stored[j] == k;
    }
  }

  /** The submitted dimension `i` is the stored dimension `j`. */
  ghost predicate Stores(dimensions: seq<RequestDimension>, i: int, j: int) {
    && 0 <= i < |dimensions| && 0 <= j < |StoredDimensions(dimensions)| == |dimensions|
    && StoredDimensions(dimensions)[j] == StoredDimension(dimensions[i]).(position := j)
  }

  /** Sorting only rearranges: every stored dimension is a submitted one, and every submitted one is stored. */
  lemma StoredFrom(dimensions: seq<RequestDimension>, j: nat) returns (i: nat)
    requires j < |dimensions|
    ensures Stores(dimensions, i, j)
  {
    var unplaced := Unplaced(dimensions);
    var sorted := Sort(unplaced, ByDimensionKey());
    SortContents(unplaced, ByDimensionKey());
    SortElements(unplaced, ByDimensionKey());
    assert sorted[j] in unplaced;
    i :| 0 <= i < |unplaced| && unplaced[i] == sorted[j];
  }

  lemma StoredAt(dimensions: seq<RequestDimension>, i: nat) returns (j: nat)
    requires i < |dimensions|
    ensures Stores(dimensions, i, j)
  {
    var unplaced := Unplaced(dimensions);
    var sorted := Sort(unplaced, ByDimensionKey());
    SortContents(unplaced, ByDimensionKey());
    SortElements(unplaced, ByDimensionKey());
    assert unplaced[i] in sorted;
    j :| 0 <= j < |sorted| && sorted[j] == unplaced[i];
  }

  lemma StoredLength(dimensions: seq<RequestDimension>)
    ensures |StoredDimensions(dimensions)| == |dimensions|
  {
    SortContents(Unplaced(dimensions), ByDimensionKey());
  }

  lemma StoredKeysAscend(dimensions: seq<RequestDimension>)
    requires WellFormed(AxesOfRequest(dimensions))
    ensures Ascending(KeysOf(AxesOf(StoredDimensions(dimensions))), ByBytes())
  {
    KeyOrders();
    var unplaced, axes := Unplaced(dimensions), AxesOfRequest(dimensions);
    forall i, j | 0 <= i < j < |unplaced|
      ensures ByDimensionKey()(unplaced[i], unplaced[j]) || ByDimensionKey()(unplaced[j], unplaced[i])
    {
      assert axes[i].key != axes[j].key;
      LessTotal(dimensions[i].code.key, dimensions[j].code.key);
    }
    SortAscending(unplaced, ByDimensionKey());
    var sorted, keys := Sort(unplaced, ByDimensionKey()), KeysOf(AxesOf(StoredDimensions(dimensions)));
    forall i, j | 0 <= i < j < |keys| ensures ByBytes()(keys[i], keys[j]) {
      assert ByDimensionKey()(sorted[i], sorted[j]);
    }
  }

  /** Axis `i` of `a` and axis `j` of `b` are the same dimension with the same categories. */
  ghost predicate SameAxis(a: seq<Axis>, i: int, b: seq<Axis>, j: int) {
    0 <= i < |a| && 0 <= j < |b| && a[i].key == b[j].key && Elements(a[i].cats) == Elements(b[j].cats)
  }

  ghost predicate HasTwin(a: seq<Axis>, i: int, b: seq<Axis>) {
    exists j :: SameAxis(a, i, b, j)
  }

  lemma StoredAxis(dimensions: seq<RequestDimension>, i: int, j: int)
    requires WellFormed(AxesOfRequest(dimensions)) && Stores(dimensions, i, j)
    ensures SameAxis(AxesOf(StoredDimensions(dimensions)), j, AxesOfRequest(dimensions), i)
    ensures AxesOf(StoredDimensions(dimensions))[j].cats != []
    ensures Ascending(AxesOf(StoredDimensions(dimensions))[j].cats, ByBytes())
  {
    assert AxesOfRequest(dimensions)[i] == AxisOfRequest(dimensions[i]);
    StoredCategories(dimensions[i]);
    assert AxesOf(StoredDimensions(dimensions))[j].cats == AxisOf(StoredDimension(dimensions[i])).cats;
  }

  lemma StoredIsSorted(dimensions: seq<RequestDimension>)
    requires WellFormed(AxesOfRequest(dimensions))
    ensures WellPlaced(StoredDimensions(dimensions))
    ensures Sorted(AxesOf(StoredDimensions(dimensions)))
  {
    StoredLength(dimensions);
    StoredKeysAscend(dimensions);
    var stored := AxesOf(StoredDimensions(dimensions));
    forall j | 0 <= j < |stored| ensures stored[j].cats != [] && Ascending(stored[j].cats, ByBytes()) {
      var i := StoredFrom(dimensions, j);
      StoredAxis(dimensions, i, j);
    }
    forall j | 0 <= j < |stored|
      ensures StoredDimensions(dimensions)[j].position == j
      ensures forall k :: 0 <= k < |StoredDimensions(dimensions)[j].categories| ==>
        StoredDimensions(dimensions)[j].categories[k].position == k
    {
      var i := StoredFrom(dimensions, j);
    }
  }

  /** The stored structure is in canonical order and describes the submitted cube. */
  lemma StoredIsCanonical(dimensions: seq<RequestDimension>)
    requires WellFormed(AxesOfRequest(dimensions))
    ensures WellPlaced(StoredDimensions(dimensions))
    ensures Sorted(AxesOf(StoredDimensions(dimensions))) && WellFormed(AxesOf(StoredDimensions(dimensions)))
    ensures SameCube(AxesOf(StoredDimensions(dimensions)), AxesOfRequest(dimensions))
    ensures KeysAscend(StoredDimensions(dimensions))
  {
    StoredLength(dimensions);
    StoredIsSorted(dimensions);
    var stored, request := AxesOf(StoredDimensions(dimensions)), AxesOfRequest(dimensions);
    SortedIsWellFormed(stored);
    forall j | 0 <= j < |stored| ensures HasTwin(stored, j, request) {
      var i := StoredFrom(dimensions, j);
      StoredAxis(dimensions, i, j);
    }
    forall i | 0 <= i < |request| ensures HasTwin(request, i, stored) {
      var j := StoredAt(dimensions, i);
      StoredAxis(dimensions, i, j);
      assert SameAxis(request, i, stored, j);
    }
    SameCubeByMatching(stored, request);
    SortedAscends(StoredDimensions(dimensions));
  }

  lemma SameCubeByMatching(a: seq<Axis>, b: seq<Axis>)
    requires WellFormed(a) && WellFormed(b)
    requires forall i :: 0 <= i < |a| ==> HasTwin(a, i, b)
    requires forall j :: 0 <= j < |b| ==> HasTwin(b, j, a)
    ensures SameCube(a, b)
  {
    forall k ensures k in Elements(KeysOf(a)) <==> k in Elements(KeysOf(b)) {
      KeyMember(a, k);
      KeyMember(b, k);
      if i :| 0 <= i < |a| && a[i].key == k {
        assert HasTwin(a, i, b);
      }
      if j :| 0 <= j < |b| && b[j].key == k {
        assert HasTwin(b, j, a);
      }
    }
    forall i, j | 0 <= i < |a| && 0 <= j < |b| && a[i].key == b[j].key
      ensures Elements(a[i].cats) == Elements(b[j].cats)
    {
      assert HasTwin(a, i, b);
      var k :| SameAxis(a, i, b, k);
      assert k == j;
    }
  }

  // remapCellIndex.

  /** The lookup tables that remapReplacement builds from the stored structure. */
  ghost predicate TablesOf(stored: seq<Axis>, dimensionPosition: map<Key, int>,
                           categoryPositions: map<Key, map<Key, int>>)
  {
    forall j :: 0 <= j < |stored| ==>
      && stored[j].key in dimensionPosition && dimensionPosition[stored[j].key] == j
      && stored[j].key in categoryPositions && PositionsOf(stored[j].cats, categoryPositions[stored[j].key])
  }

  ghost predicate PositionsOf(cats: seq<Key>, positions: map<Key, int>) {
    forall v :: 0 <= v < |cats| ==> cats[v] in positions && positions[cats[v]] == v
  }

  /** Where the tables send category `c` of dimension `i`. */
  lemma TablesPlace(dimensions: seq<RequestDimension>, stored: seq<Axis>, dimensionPosition: map<Key, int>,
                    categoryPositions: map<Key, map<Key, int>>, i: nat, c: nat)
    returns (j: nat, v: nat)
    requires WellFormed(AxesOfRequest(dimensions)) && WellFormed(stored) && Within(AxesOfRequest(dimensions), stored)
    requires TablesOf(stored, dimensionPosition, categoryPositions)
    requires i < |dimensions| && c < |dimensions[i].categories|
    ensures dimensions[i].code.key in dimensionPosition && dimensionPosition[dimensions[i].code.key] == j
    ensures dimensions[i].code.key in categoryPositions
    ensures dimensions[i].categories[c].key in categoryPositions[dimensions[i].code.key]
    ensures categoryPositions[dimensions[i].code.key][dimensions[i].categories[c].key] == v
    ensures j < |stored| && stored[j].key == AxesOfRequest(dimensions)[i].key
    ensures v < |stored[j].cats| && stored[j].cats[v] == AxesOfRequest(dimensions)[i].cats[c]
  {
    var request := AxesOfRequest(dimensions);
    assert request[i] == AxisOfRequest(dimensions[i]);
    KeyMember(request, request[i].key);
    KeyMember(stored, request[i].key);
    j :| 0 <= j < |stored| && stored[j].key == request[i].key;
    assert request[i].cats[c] in Elements(request[i].cats);
    assert request[i].cats[c] in Elements(stored[j].cats);
    v :| 0 <= v < |stored[j].cats| && stored[j].cats[v] == request[i].cats[c];
  }

  /** The position of what the first `i` coordinates of payload index `k` place. */
  ghost function PlacedSum(request: seq<Axis>, stored: seq<Axis>, k: int, i: nat): int
    requires WellFormed(request) && 0 <= k < Count(request) && i <= |request|
  {
    SizesPositive(request);
    FlattenOfUnflatten(k, SizesOf(request));
    Flatten(Placed(stored, NamesUpTo(request, Unflatten(k, SizesOf(request)), i)), SizesOf(stored))
  }

  lemma PlacedSumInRange(request: seq<Axis>, stored: seq<Axis>, k: int, i: nat)
    requires WellFormed(request) && WellFormed(stored)
    requires Within(request, stored) && 0 <= k < Count(request) && i <= |request|
    ensures 0 <= PlacedSum(request, stored, k, i) < Count(stored)
  {
    var coords := Unflatten(k, SizesOf(request));
    SizesPositive(request);
    FlattenOfUnflatten(k, SizesOf(request));
    PlacedInCube(request, stored, coords, i);
    FlattenInRange(Placed(stored, NamesUpTo(request, coords, i)), SizesOf(stored));
  }

  /** Placing one more category moves the position by that category's share. */
  lemma NameSum(stored: seq<Axis>, name: Name, j: nat, v: int)
    requires WellFormed(stored) && j < |stored| && stored[j].key !in name && 0 <= v < |stored[j].cats|
    ensures Flatten(Placed(stored, name[stored[j].key := stored[j].cats[v]]), SizesOf(stored))
            == Flatten(Placed(stored, name), SizesOf(stored)) + v * StridesOf(SizesOf(stored))[j]
  {
    PlacedStep(stored, name, j, v);
    FlattenOfUpdate(Placed(stored, name), SizesOf(stored), j, v);
  }

  /** One pass of the fused loop: the scalar sum stays the position of the coordinates placed so far. */
  lemma SumStep(request: seq<Axis>, stored: seq<Axis>, k: int, i: nat, c: int, j: nat, v: int)
    requires WellFormed(request) && WellFormed(stored) && Within(request, stored) && 0 <= k < Count(request)
    requires i < |request| && j < |stored| && stored[j].key == request[i].key
    requires Positive(SizesOf(request)) && c == Unflatten(k, SizesOf(request))[i] && 0 <= c < |request[i].cats|
    requires 0 <= v < |stored[j].cats| && stored[j].cats[v] == request[i].cats[c]
    ensures PlacedSum(request, stored, k, i + 1) == PlacedSum(request, stored, k, i) + v * StridesOf(SizesOf(stored))[j]
  {
    var coords := Unflatten(k, SizesOf(request));
    FlattenOfUnflatten(k, SizesOf(request));
    NamesStep(request, coords, i);
    NameSum(stored, NamesUpTo(request, coords, i), j, v);
  }

  /** It never leaves the cube on the way. */
  lemma SumGrows(request: seq<Axis>, stored: seq<Axis>, k: int, i: nat, c: int, j: nat, v: int)
    requires WellFormed(request) && WellFormed(stored) && Within(request, stored) && 0 <= k < Count(request)
    requires i < |request| && j < |stored| && stored[j].key == request[i].key
    requires Positive(SizesOf(request)) && c == Unflatten(k, SizesOf(request))[i] && 0 <= c < |request[i].cats|
    requires 0 <= v < |stored[j].cats| && stored[j].cats[v] == request[i].cats[c]
    ensures PlacedSum(request, stored, k, i + 1) == PlacedSum(request, stored, k, i) + v * StridesOf(SizesOf(stored))[j]
    ensures 0 <= PlacedSum(request, stored, k, i) <= PlacedSum(request, stored, k, i + 1) < Count(stored)
  {
    SumStep(request, stored, k, i, c, j, v);
    PlacedSumInRange(request, stored, k, i);
    PlacedSumInRange(request, stored, k, i + 1);
    SizesPositive(stored);
    ProductSplit(SizesOf(stored), j + 1);
    MulMono(0, v, StridesOf(SizesOf(stored))[j]);
  }

  /** The same pass in terms of the lookup tables: both lookups succeed and the sum advances without leaving the
      cube. */
  lemma TableStep(dimensions: seq<RequestDimension>, stored: seq<Axis>, dimensionPosition: map<Key, int>,
                  categoryPositions: map<Key, map<Key, int>>, k: int, i: nat, c: nat)
    requires WellFormed(AxesOfRequest(dimensions)) && WellFormed(stored) && Within(AxesOfRequest(dimensions), stored)
    requires TablesOf(stored, dimensionPosition, categoryPositions) && 0 <= k < Count(AxesOfRequest(dimensions))
    requires i < |dimensions| && c < |dimensions[i].categories| && Positive(SizesOf(AxesOfRequest(dimensions)))
    requires c == Unflatten(k, SizesOf(AxesOfRequest(dimensions)))[i]
    ensures dimensions[i].code.key in dimensionPosition && dimensions[i].code.key in categoryPositions
    ensures dimensions[i].categories[c].key in categoryPositions[dimensions[i].code.key]
    ensures 0 <= dimensionPosition[dimensions[i].code.key] < |stored|
    ensures PlacedSum(AxesOfRequest(dimensions), stored, k, i + 1)
            == PlacedSum(AxesOfRequest(dimensions), stored, k, i)
               + categoryPositions[dimensions[i].code.key][dimensions[i].categories[c].key]
                 * StridesOf(SizesOf(stored))[dimensionPosition[dimensions[i].code.key]]
    ensures 0 <= PlacedSum(AxesOfRequest(dimensions), stored, k, i)
    ensures PlacedSum(AxesOfRequest(dimensions), stored, k, i)
            <= PlacedSum(AxesOfRequest(dimensions), stored, k, i + 1) < Count(stored)
  {
    var j, v := TablesPlace(dimensions, stored, dimensionPosition, categoryPositions, i, c);
    SumGrows(AxesOfRequest(dimensions), stored, k, i, c, j, v);
  }

  /** In int64 arithmetic. */
  lemma WrappedStep(dimensions: seq<RequestDimension>, stored: seq<Axis>, dimensionPosition: map<Key, int>,
                    categoryPositions: map<Key, map<Key, int>>, k: int, i: nat, c: nat, storedStrides: seq<int>)
    returns (sum: int)
    requires WellFormed(AxesOfRequest(dimensions)) && WellFormed(stored) && Within(AxesOfRequest(dimensions), stored)
    requires TablesOf(stored, dimensionPosition, categoryPositions) && 0 <= k < Count(AxesOfRequest(dimensions))
    requires i < |dimensions| && c < |dimensions[i].categories| && Positive(SizesOf(AxesOfRequest(dimensions)))
    requires c == Unflatten(k, SizesOf(AxesOfRequest(dimensions)))[i]
    requires storedStrides == StridesOf(SizesOf(stored)) && Count(stored) <= MAX_INT64
    ensures dimensions[i].code.key in dimensionPosition && dimensions[i].code.key in categoryPositions
    ensures dimensions[i].categories[c].key in categoryPositions[dimensions[i].code.key]
    ensures 0 <= dimensionPosition[dimensions[i].code.key] < |storedStrides|
    ensures sum == PlacedSum(AxesOfRequest(dimensions), stored, k, i + 1)
    ensures Wrap64(PlacedSum(AxesOfRequest(dimensions), stored, k, i)
                   + Wrap64(categoryPositions[dimensions[i].code.key][dimensions[i].categories[c].key]
                            * storedStrides[dimensionPosition[dimensions[i].code.key]])) == sum
  {
    TableStep(dimensions, stored, dimensionPosition, categoryPositions, k, i, c);
    sum := PlacedSum(AxesOfRequest(dimensions), stored, k, i + 1);
  }

  lemma SumStartsAtZero(request: seq<Axis>, stored: seq<Axis>, k: int)
    requires WellFormed(request) && 0 <= k < Count(request)
    ensures PlacedSum(request, stored, k, 0) == 0
  {
    SizesPositive(request);
    FlattenOfUnflatten(k, SizesOf(request));
    assert NamesUpTo(request, Unflatten(k, SizesOf(request)), 0) == map[];
    FlattenOfZeros(Placed(stored, map[]), SizesOf(stored));
  }

  lemma SumIsStoredIndex(request: seq<Axis>, stored: seq<Axis>, k: int)
    requires WellFormed(request) && WellFormed(stored) && Within(request, stored) && 0 <= k < Count(request)
    ensures PlacedSum(request, stored, k, |request|) == IndexNamed(stored, NameOf(request, k))
  {
    PlacedIsNamed(request, stored, k);
  }

  lemma {:induction false} FlattenOfZeros(coords: seq<int>, sizes: seq<int>)
    requires |coords| == |sizes| && forall i :: 0 <= i < |coords| ==> coords[i] == 0
    ensures Flatten(coords, sizes) == 0
  {
    if sizes != [] {
      FlattenOfZeros(coords[1..], sizes[1..]);
    }
  }

  /** The state of the fused loop after `i` dimensions: outside the payload's cube it never gets past the first. */
  ghost predicate Remapping(request: seq<Axis>, stored: seq<Axis>, k: int, i: nat, remaining: int, sum: int)
    requires WellFormed(request) && i <= |request|
  {
    if 0 <= k < Count(request) then
      && 0 <= remaining < Product(SizesOf(request)[i..])
      && Unflatten(k, SizesOf(request)) == Unflatten(k, SizesOf(request))[..i]
        + Unflatten(remaining, SizesOf(request)[i..])
      && sum == PlacedSum(request, stored, k, i)
    else
      i == 0 && remaining == k
  }

  lemma RemappingStarts(request: seq<Axis>, stored: seq<Axis>, k: int)
    requires WellFormed(request)
    ensures Remapping(request, stored, k, 0, k, 0)
  {
    var sizes := SizesOf(request);
    assert sizes[0..] == sizes;
    if 0 <= k < Count(request) {
      SumStartsAtZero(request, stored, k);
    }
  }

  /** The tests of one pass fail exactly outside the cube; inside they give the next coordinate. */
  lemma RemappingTests(request: seq<Axis>, stored: seq<Axis>, k: int, i: nat, remaining: int, sum: int, stride: int)
    requires WellFormed(request) && i < |request| && Remapping(request, stored, k, i, remaining, sum)
    requires stride == StridesOf(SizesOf(request))[i]
    ensures stride >= 1 && Positive(SizesOf(request))
    ensures 0 <= k < Count(request) <==> remaining >= 0 && remaining / stride < |request[i].cats|
    ensures 0 <= k < Count(request) ==> 0 <= remaining / stride == Unflatten(k, SizesOf(request))[i]
  {
    var sizes := SizesOf(request);
    SizesPositive(request);
    assert sizes[0..] == sizes;
    NextDigit(Unflatten(k, sizes), remaining, sizes, i, stride);
  }

  lemma RemappingStep(request: seq<Axis>, stored: seq<Axis>, k: int, i: nat, remaining: int, sum: int, stride: int,
                      next: int)
    requires WellFormed(request) && i < |request|
    requires Remapping(request, stored, k, i, remaining, sum) && 0 <= k < Count(request)
    requires stride == StridesOf(SizesOf(request))[i] && stride >= 1 && next == PlacedSum(request, stored, k, i + 1)
    ensures Remapping(request, stored, k, i + 1, remaining % stride, next)
  {
    SizesPositive(request);
    NextDigit(Unflatten(k, SizesOf(request)), remaining, SizesOf(request), i, stride);
  }

  /** One pass of the fused loop, on dimension `i`. None: the index is outside the cube. */
  method RemapDigit(ghost requestIndex: int, i: nat, remaining: int, storedIndex: int,
                    dimensions: seq<RequestDimension>, size: int, stride: int, storedStrides: seq<int>,
                    dimensionPosition: map<Key, int>, categoryPositions: map<Key, map<Key, int>>,
                    ghost stored: seq<Axis>)
    returns (r: Option<(int, int)>)
    requires WellFormed(AxesOfRequest(dimensions)) && WellFormed(stored) && Within(AxesOfRequest(dimensions), stored)
    requires i < |dimensions| && size == |dimensions[i].categories|
    requires stride == StridesOf(SizesOf(AxesOfRequest(dimensions)))[i]
    requires storedStrides == StridesOf(SizesOf(stored)) && Count(stored) <= MAX_INT64
    requires TablesOf(stored, dimensionPosition, categoryPositions)
    requires Remapping(AxesOfRequest(dimensions), stored, requestIndex, i, remaining, storedIndex)
    ensures r.Some? <==> 0 <= requestIndex < Count(AxesOfRequest(dimensions))
    ensures r.Some? ==> Remapping(AxesOfRequest(dimensions), stored, requestIndex, i + 1, r.value.0, r.value.1)
  {
    ghost var request := AxesOfRequest(dimensions);
    RemappingTests(request, stored, requestIndex, i, remaining, storedIndex, stride);
    if remaining < 0 || stride < 1 {
      return None;
    }
    var coordinate := remaining / stride;
    if coordinate >= size {
      return None;
    }
    var dimension := dimensions[i];
    ghost var next := WrappedStep(dimensions, stored, dimensionPosition, categoryPositions, requestIndex, i, coordinate,
                                  storedStrides);
    var storedDimensionPosition := dimensionPosition[dimension.code.key];
    var storedPosition := categoryPositions[dimension.code.key][dimension.categories[coordinate].key];
    RemappingStep(request, stored, requestIndex, i, remaining, storedIndex, stride, next);
    return Some((remaining % stride,
                 Wrap64(storedIndex + Wrap64(storedPosition * storedStrides[storedDimensionPosition]))));
  }

  /** The fused, allocation-free loop. It fails exactly outside the payload's cube, no int64 sum in it wraps, and it
      returns the stored index of the cell with the same name. */
  method RemapCellIndex(requestIndex: int, dimensions: seq<RequestDimension>, requestSizes: seq<int>,
                        requestStrides: seq<int>, storedStrides: seq<int>, dimensionPosition: map<Key, int>,
                        categoryPositions: map<Key, map<Key, int>>, ghost stored: seq<Axis>)
    returns (r: Result<int, IndexError>)
    requires dimensions != [] && WellFormed(AxesOfRequest(dimensions))
    requires WellFormed(stored) && Within(AxesOfRequest(dimensions), stored)
    requires requestSizes == SizesOf(AxesOfRequest(dimensions)) && requestStrides == StridesOf(requestSizes)
    requires storedStrides == StridesOf(SizesOf(stored)) && Count(stored) <= MAX_INT64
    requires TablesOf(stored, dimensionPosition, categoryPositions)
    ensures r.Ok? <==> 0 <= requestIndex < Count(AxesOfRequest(dimensions))
    ensures r.Ok? ==> r.value == IndexNamed(stored, NameOf(AxesOfRequest(dimensions), requestIndex))
  {
    ghost var request := AxesOfRequest(dimensions);
    var remaining, storedIndex := requestIndex, 0;
    RemappingStarts(request, stored, requestIndex);
    for i := 0 to |requestStrides|
      invariant Remapping(request, stored, requestIndex, i, remaining, storedIndex)
    {
      var digit := RemapDigit(requestIndex, i, remaining, storedIndex, dimensions, requestSizes[i], requestStrides[i],
                              storedStrides, dimensionPosition, categoryPositions, stored);
      if digit.None? {
        return Err(OutsideCube);
      }
      remaining, storedIndex := digit.value.0, digit.value.1;
    }
    RemappingEnds(request, stored, requestIndex, remaining, storedIndex);
    return Ok(storedIndex);
  }

  lemma RemappingEnds(request: seq<Axis>, stored: seq<Axis>, k: int, remaining: int, sum: int)
    requires request != [] && WellFormed(request) && WellFormed(stored) && Within(request, stored)
    requires Remapping(request, stored, k, |request|, remaining, sum)
    ensures 0 <= k < Count(request) && sum == IndexNamed(stored, NameOf(request, k))
  {
    SumIsStoredIndex(request, stored, k);
  }

  // remapReplacement.

  /** Where a payload cell is stored, and where a stored cell came from: the index of the same name. */
  ghost function StoredIndex(request: seq<Axis>, stored: seq<Axis>, k: int): int
    requires WellFormed(request) && WellFormed(stored) && 0 <= k < Count(request)
  {
    IndexNamed(stored, NameOf(request, k))
  }

  /** The fused loop is decompose, permute, recompose: take the coordinates of the payload index, give every stored
      dimension the position of the same category, and take the position of those coordinates. */
  lemma RemapIsRecomposition(request: seq<Axis>, stored: seq<Axis>, k: int, placed: seq<int>)
    requires WellFormed(request) && WellFormed(stored) && SameCube(request, stored) && 0 <= k < Count(request)
    requires Positive(SizesOf(request)) && InCube(placed, SizesOf(stored))
    requires InCube(Unflatten(k, SizesOf(request)), SizesOf(request))
    requires forall i, j :: 0 <= i < |request| && 0 <= j < |stored| && request[i].key == stored[j].key ==>
      request[i].cats[Unflatten(k, SizesOf(request))[i]] == stored[j].cats[placed[j]]
    ensures StoredIndex(request, stored, k) == Flatten(placed, SizesOf(stored))
  {
    SameNames(request, Unflatten(k, SizesOf(request)), stored, placed);
    NameOfFlatten(stored, placed);
    IndexNamedUnique(stored, Flatten(placed, SizesOf(stored)));
  }

  /** The remap is a bijection between the payload's cube and the stored one: going there and back is the identity, in
      both directions, and both cubes have the same size. */
  lemma RemapIsBijection(request: seq<Axis>, stored: seq<Axis>, k: int)
    requires WellFormed(request) && WellFormed(stored) && SameCube(request, stored) && 0 <= k < Count(request)
    ensures Count(stored) == Count(request)
    ensures 0 <= StoredIndex(request, stored, k) < Count(stored)
    ensures StoredIndex(stored, request, StoredIndex(request, stored, k)) == k
  {
    SameCount(request, stored);
    NameWithin(request, stored, k);
    IndexNamedUnique(request, k);
  }

  /** For every stored index, the payload index it came from. */
  ghost function Origins(request: seq<Axis>, stored: seq<Axis>): (origins: seq<int>)
    requires WellFormed(request) && WellFormed(stored)
    ensures |origins| == Count(stored)
  {
    SizesPositive(stored);
    seq(Count(stored), s requires 0 <= s < Count(stored) => StoredIndex(stored, request, s))
  }

  /** Cells read through a table of origins. */
  ghost function Pulled(origins: seq<int>, cells: map<int, Content>): map<int, Content> {
    map s | 0 <= s < |origins| && origins[s] in cells :: cells[origins[s]]
  }

  lemma PulledAt(origins: seq<int>, cells: map<int, Content>, s: int)
    ensures s in Pulled(origins, cells) <==> 0 <= s < |origins| && origins[s] in cells
    ensures s in Pulled(origins, cells) ==> Pulled(origins, cells)[s] == cells[origins[s]]
  {
  }

  /** Every cell of a payload at its stored index. */
  ghost function Moved(request: seq<Axis>, stored: seq<Axis>, cells: map<int, Content>): map<int, Content>
    requires WellFormed(request) && WellFormed(stored)
  {
    Pulled(Origins(request, stored), cells)
  }

  lemma PulledAdd(origins: seq<int>, cells: map<int, Content>, k: int, content: Content, at: int)
    requires k !in cells && 0 <= at < |origins| && origins[at] == k
    requires forall s :: 0 <= s < |origins| && origins[s] == k ==> s == at
    ensures at !in Pulled(origins, cells)
    ensures Pulled(origins, cells[k := content]) == Pulled(origins, cells)[at := content]
  {
  }

  lemma OnlyOrigin(request: seq<Axis>, stored: seq<Axis>, k: int, s: int)
    requires WellFormed(request) && WellFormed(stored) && SameCube(request, stored)
    requires 0 <= k < Count(request) && 0 <= s < Count(stored)
    ensures StoredIndex(stored, request, s) == k <==> s == StoredIndex(request, stored, k)
  {
    RemapIsBijection(request, stored, k);
    RemapIsBijection(stored, request, s);
  }

  lemma MovedAdd(request: seq<Axis>, stored: seq<Axis>, cells: map<int, Content>, k: int, content: Content)
    requires WellFormed(request) && WellFormed(stored) && SameCube(request, stored)
    requires k !in cells && 0 <= k < Count(request)
    ensures StoredIndex(request, stored, k) !in Moved(request, stored, cells)
    ensures Moved(request, stored, cells[k := content])
            == Moved(request, stored, cells)[StoredIndex(request, stored, k) := content]
  {
    RemapIsBijection(request, stored, k);
    var origins := Origins(request, stored);
    forall s | 0 <= s < |origins| ensures origins[s] == k <==> s == StoredIndex(request, stored, k) {
      OnlyOrigin(request, stored, k, s);
    }
    PulledAdd(origins, cells, k, content, StoredIndex(request, stored, k));
  }

  method BuildTables(stored: seq<Dimension>)
    returns (sizes: seq<int>, dimensionPosition: map<Key, int>, categoryPositions: map<Key, map<Key, int>>)
    requires WellFormed(AxesOf(stored)) && WellPlaced(stored)
    ensures sizes == SizesOf(AxesOf(stored))
    ensures TablesOf(AxesOf(stored), dimensionPosition, categoryPositions)
  {
    ghost var axes := AxesOf(stored);
    sizes, dimensionPosition, categoryPositions := [], map[], map[];
    for i := 0 to |stored|
      invariant sizes == SizesOf(axes)[..i]
      invariant TablesOf(axes[..i], dimensionPosition, categoryPositions)
    {
      var dimension := stored[i];
      assert axes[i] == AxisOf(dimension);
      sizes := sizes + [|dimension.categories|];
      dimensionPosition := dimensionPosition[dimension.code.key := i];
      var positions: map<Key, int> := map[];
      for j := 0 to |dimension.categories|
        invariant PositionsOf(axes[i].cats[..j], positions)
      {
        assert Distinct(axes[i].cats) && axes[i].cats[j] == dimension.categories[j].code.key;
        positions := positions[dimension.categories[j].code.key := dimension.categories[j].position];
      }
      assert axes[i].cats[..|dimension.categories|] == axes[i].cats;
      categoryPositions := categoryPositions[dimension.code.key := positions];
      assert forall k :: 0 <= k < i ==> axes[k].key != axes[i].key;
    }
    assert axes[..|stored|] == axes;
    assert SizesOf(axes)[..|stored|] == SizesOf(axes);
  }

  lemma NumberStep(sorted: seq<Dimension>, i: nat)
    requires i < |sorted|
    ensures (Numbered(sorted)[..i] + sorted[i..])[i := sorted[i].(position := i)]
            == Numbered(sorted)[..i + 1] + sorted[i + 1..]
  {
  }

  method BuildStored(dimensions: seq<RequestDimension>) returns (stored: seq<Dimension>)
    ensures stored == StoredDimensions(dimensions)
  {
    stored := [];
    for i := 0 to |dimensions|
      invariant stored == Unplaced(dimensions)[..i]
    {
      var codes := Sort(dimensions[i].categories, ByCodeKey());
      var categories: seq<Category> := [];
      for j := 0 to |codes|
        invariant |categories| == j && forall k :: 0 <= k < j ==> categories[k] == Category(codes[k], k)
      {
        categories := categories + [Category(codes[j], j)];
      }
      assert categories == StoredDimension(dimensions[i]).categories;
      stored := stored + [Dimension(dimensions[i].code, 0, categories)];
    }
    assert Unplaced(dimensions)[..|dimensions|] == Unplaced(dimensions);
    stored := Sort(stored, ByDimensionKey());
    ghost var sorted := stored;
    for i := 0 to |stored|
      invariant stored == Numbered(sorted)[..i] + sorted[i..]
    {
      NumberStep(sorted, i);
      stored := stored[i := stored[i].(position := i)];
    }
  }

  /** Cells that have been moved so far, in whatever order Go visited them. */
  ghost predicate MovedSoFar(origins: seq<int>, visited: map<int, Content>, cells: seq<Cell>) {
    DistinctIndexes(cells) && CellMap(cells) == Pulled(origins, visited)
  }

  lemma MovedStep(request: seq<Axis>, stored: seq<Axis>, visited: map<int, Content>, cells: seq<Cell>, k: int,
                  content: Content)
    requires WellFormed(request) && WellFormed(stored) && SameCube(request, stored)
    requires MovedSoFar(Origins(request, stored), visited, cells) && k !in visited && 0 <= k < Count(request)
    ensures MovedSoFar(Origins(request, stored), visited[k := content],
                       cells + [Cell(StoredIndex(request, stored, k), content)])
  {
    MovedAdd(request, stored, visited, k, content);
    CellMapSnoc(cells, Cell(StoredIndex(request, stored, k), content));
  }

  ghost predicate InRange(cells: map<int, Content>, count: int) {
    forall k :: k in cells ==> 0 <= k < count
  }

  lemma InRangeStep(cells: map<int, Content>, count: int, k: int, content: Content)
    requires InRange(cells, count) && 0 <= k < count
    ensures InRange(cells[k := content], count)
  {
  }

  method SizesOfRequest(dimensions: seq<RequestDimension>) returns (sizes: seq<int>)
    ensures sizes == SizesOf(AxesOfRequest(dimensions))
  {
    sizes := [];
    for i := 0 to |dimensions|
      invariant sizes == SizesOf(AxesOfRequest(dimensions))[..i]
    {
      sizes := sizes + [|dimensions[i].categories|];
    }
  }

  /** The loop over the payload's cells. */
  method MoveCells(dimensions: seq<RequestDimension>, requestCells: map<int, Content>, cellCount: int,
                   requestSizes: seq<int>, requestStrides: seq<int>, storedStrides: seq<int>,
                   dimensionPosition: map<Key, int>, categoryPositions: map<Key, map<Key, int>>,
                   ghost stored: seq<Axis>)
    returns (r: Result<seq<Cell>, IndexError>)
    requires dimensions != [] && WellFormed(AxesOfRequest(dimensions))
    requires WellFormed(stored) && SameCube(AxesOfRequest(dimensions), stored)
    requires cellCount == Count(AxesOfRequest(dimensions)) && Count(stored) <= MAX_INT64
    requires requestSizes == SizesOf(AxesOfRequest(dimensions)) && requestStrides == StridesOf(requestSizes)
    requires storedStrides == StridesOf(SizesOf(stored)) && TablesOf(stored, dimensionPosition, categoryPositions)
    ensures r.Ok? <==> forall k :: k in requestCells ==> 0 <= k < cellCount
    ensures r.Ok? ==> MovedSoFar(Origins(AxesOfRequest(dimensions), stored), requestCells, r.value)
  {
    var cells: seq<Cell> := [];
    var remaining := requestCells.Keys;
    ghost var visited: map<int, Content> := map[];
    ghost var request := AxesOfRequest(dimensions);
    while remaining != {}
      invariant PartOf(visited, requestCells, remaining) && InRange(visited, cellCount)
      invariant MovedSoFar(Origins(request, stored), visited, cells)
      decreases |remaining|
    {
      ghost var some := Inhabited(remaining);
      var requestIndex :| requestIndex in remaining;
      if requestIndex < 0 || requestIndex >= cellCount {
        return Err(OutsideCube);
      }
      var storedIndex := RemapCellIndex(requestIndex, dimensions, requestSizes, requestStrides, storedStrides,
                                        dimensionPosition, categoryPositions, stored);
      MovedStep(request, stored, visited, cells, requestIndex, requestCells[requestIndex]);
      PartStep(visited, requestCells, remaining, requestIndex);
      InRangeStep(visited, cellCount, requestIndex, requestCells[requestIndex]);
      cells := cells + [Cell(storedIndex.value, requestCells[requestIndex])];
      visited := visited[requestIndex := requestCells[requestIndex]];
      remaining := remaining - {requestIndex};
    }
    PartIsWhole(visited, requestCells);
    return Ok(cells);
  }

  /** Succeeds exactly when every cell index is inside the payload's cube. The structure becomes canonical; the cells
      come out strictly ascending and hold, at the index with the same name, what the payload held. */
  method RemapReplacement(dimensions: seq<RequestDimension>, requestCells: map<int, Content>, cellCount: int)
    returns (r: Result<(seq<Dimension>, seq<Cell>), IndexError>)
    requires dimensions != [] && WellFormed(AxesOfRequest(dimensions))
    requires cellCount == Count(AxesOfRequest(dimensions)) <= MAX_INT64
    ensures r.Ok? <==> forall k :: k in requestCells ==> 0 <= k < cellCount
    ensures r.Ok? ==> r.value.0 == StoredDimensions(dimensions) && KeysAscend(r.value.0)
    ensures r.Ok? ==> StoredCells(dimensions, requestCells, r.value.1)
  {
    var stored := BuildStored(dimensions);
    StoredIsCanonical(dimensions);
    ghost var axes := AxesOf(stored);
    SameCount(AxesOfRequest(dimensions), axes);
    SizesPositive(AxesOfRequest(dimensions));
    SizesPositive(axes);
    var storedSizes, dimensionPosition, categoryPositions := BuildTables(stored);
    var requestSizes := SizesOfRequest(dimensions);
    var requestStrides := Strides(requestSizes);
    var storedStrides := Strides(storedSizes);
    var moved := MoveCells(dimensions, requestCells, cellCount, requestSizes, requestStrides[..], storedStrides[..],
                           dimensionPosition, categoryPositions, axes);
    if moved.Err? {
      return Err(moved.error);
    }
    SortCells(moved.value);
    return Ok((stored, Sort(moved.value, ByIndex())));
  }

  /** What the stored cells of a payload are: ascending, each at the stored index with its payload name. By
      AscendingCellsUnique there is only one such list. */
  ghost predicate StoredCells(dimensions: seq<RequestDimension>, requestCells: map<int, Content>, cells: seq<Cell>) {
    var request, stored := AxesOfRequest(dimensions), AxesOf(StoredDimensions(dimensions));
    && WellFormed(request) && WellFormed(stored)
    && CellsAscend(cells) && CellMap(cells) == Moved(request, stored, requestCells)
  }
}
