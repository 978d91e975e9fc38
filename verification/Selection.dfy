/** internal/domain/selection.go: ResolveSelection turns a requested Cartesian subset into stored indexes. */
module Selection {
  import opened Basics
  import opened Index
  import opened Model
  import opened Naming
  import opened Structure
  import opened Remap

  datatype SelectionError =
    | WrongDimensionCount
    | SelectedDimensionTwice
    | UnknownDimension
    | SelectedCategoryTwice
    | UnknownCategory
    | SelectionSize(product: ProductError)

  /** Every stored dimension exactly once, and on each a duplicate-free choice of its categories. */
  ghost predicate NamesSelected(selection: seq<Axis>, stored: seq<Axis>) {
    && |selection| == |stored|
    && Distinct(KeysOf(selection))
    && (forall i :: 0 <= i < |selection| ==> AxisSelected(selection[i], stored))
  }

  ghost predicate AxisSelected(axis: Axis, stored: seq<Axis>) {
    exists j :: 0 <= j < |stored| && Offers(stored[j], axis)
  }

  ghost predicate Offers(stored: Axis, axis: Axis) {
    stored.key == axis.key && Distinct(axis.cats) && Elements(axis.cats) <= Elements(stored.cats)
  }

  ghost predicate SelectionAccepted(selection: seq<Axis>, stored: seq<Axis>, maxCells: int) {
    NamesSelected(selection, stored) && selection != [] && Fits(SizesOf(selection), maxCells)
  }

  /** The key-level reading of acceptance: a well-formed cube within the stored one. Naming every stored dimension is
      not checked as such; it follows by pigeonhole from the count. */
  lemma SelectedIsWithin(selection: seq<Axis>, stored: seq<Axis>, maxCells: int)
    requires WellFormed(stored) && SelectionAccepted(selection, stored, maxCells)
    ensures WellFormed(selection) && Within(selection, stored) && Count(selection) <= maxCells
  {
    var keys := KeysOf(selection);
    forall i | 0 <= i < |selection|
      ensures keys[i] in Elements(KeysOf(stored)) && selection[i].cats != [] && Distinct(selection[i].cats)
    {
      assert SizesOf(selection)[i] >= 1;
      assert AxisSelected(selection[i], stored);
      var j :| 0 <= j < |stored| && Offers(stored[j], selection[i]);
      assert KeysOf(stored)[j] == keys[i];
    }
    assert Distinct(KeysOf(stored));
    DistinctSize(KeysOf(stored));
    Pigeonhole(keys, Elements(KeysOf(stored)));
    forall i, j | 0 <= i < |selection| && 0 <= j < |stored| && selection[i].key == stored[j].key
      ensures Elements(selection[i].cats) <= Elements(stored[j].cats)
    {
      assert AxisSelected(selection[i], stored);
      var k :| 0 <= k < |stored| && Offers(stored[k], selection[i]);
      assert k == j;
    }
    forall i, j | 0 <= i < j < |selection| ensures selection[i].key != selection[j].key {
      assert keys[i] != keys[j];
    }
  }

  // What is accepted, in the codes of the request and of the store.

  predicate HasKey(stored: Dimension, key: Key) {
    exists d :: 0 <= d < |stored.categories| && stored.categories[d].code.key == key
  }

  /** Some of its categories, at least one and none twice, in any order. */
  predicate CategoriesChosen(requested: RequestDimension, stored: Dimension) {
    && requested.categories != []
    && (forall c, d :: 0 <= c < d < |requested.categories| ==>
          requested.categories[c].key != requested.categories[d].key)
    && (forall c :: 0 <= c < |requested.categories| ==> HasKey(stored, requested.categories[c].key))
  }

  predicate Requests(selection: seq<RequestDimension>, key: Key) {
    exists i :: 0 <= i < |selection| && selection[i].code.key == key
  }

  predicate Stores(stored: seq<Dimension>, key: Key) {
    exists j :: 0 <= j < |stored| && stored[j].code.key == key
  }

  /** Every stored dimension once, in any order. */
  predicate DimensionsChosen(selection: seq<RequestDimension>, stored: seq<Dimension>) {
    && (forall i, j :: 0 <= i < j < |selection| ==> selection[i].code.key != selection[j].code.key)
    && (forall i :: 0 <= i < |selection| ==> Stores(stored, selection[i].code.key))
    && (forall j :: 0 <= j < |stored| ==> Requests(selection, stored[j].code.key))
  }

  predicate AllChosen(selection: seq<RequestDimension>, stored: seq<Dimension>) {
    forall i, j :: 0 <= i < |selection| && 0 <= j < |stored| && selection[i].code.key == stored[j].code.key ==>
      CategoriesChosen(selection[i], stored[j])
  }

  /** A selection is accepted exactly when it chooses some categories of every stored dimension, no more cells than the
      limit. */
  lemma AcceptedIffChosen(selection: seq<RequestDimension>, stored: seq<Dimension>, maxCells: int)
    requires WellFormed(AxesOf(stored)) && Count(AxesOf(stored)) <= MAX_INT64
    ensures SelectionAccepted(AxesOfRequest(selection), AxesOf(stored), maxCells) <==>
      && selection != [] && DimensionsChosen(selection, stored) && AllChosen(selection, stored)
      && Product(seq(|selection|, i requires 0 <= i < |selection| => |selection[i].categories|)) <= maxCells
  {
    var request, axes := AxesOfRequest(selection), AxesOf(stored);
    AcceptedIffWithin(request, axes, maxCells);
    assert SizesOf(request) == seq(|selection|, i requires 0 <= i < |selection| => |selection[i].categories|);
    if WellFormed(request) && Within(request, axes) {
      WithinIsChosen(selection, stored);
    }
    if DimensionsChosen(selection, stored) && AllChosen(selection, stored) {
      ChosenIsWithin(selection, stored);
    }
  }

  lemma CategoriesIff(requested: RequestDimension, stored: Dimension)
    ensures CategoriesChosen(requested, stored) <==>
      && AxisOfRequest(requested).cats != [] && Distinct(AxisOfRequest(requested).cats)
      && Elements(AxisOfRequest(requested).cats) <= Elements(AxisOf(stored).cats)
  {
    var cats, offered := AxisOfRequest(requested).cats, AxisOf(stored).cats;
    forall c | 0 <= c < |cats| ensures HasKey(stored, cats[c]) <==> cats[c] in Elements(offered) {
      if cats[c] in Elements(offered) {
        var d :| 0 <= d < |offered| && offered[d] == cats[c];
        assert stored.categories[d].code.key == cats[c];
      }
      if HasKey(stored, cats[c]) {
        var d :| 0 <= d < |stored.categories| && stored.categories[d].code.key == cats[c];
        assert offered[d] == cats[c];
      }
    }
    if CategoriesChosen(requested, stored) {
      forall c, d | 0 <= c < d < |cats| ensures cats[c] != cats[d] {
        assert requested.categories[c].key != requested.categories[d].key;
      }
      forall key | key in Elements(cats) ensures key in Elements(offered) {
        var c :| 0 <= c < |cats| && cats[c] == key;
        assert HasKey(stored, requested.categories[c].key);
      }
    }
    if cats != [] && Distinct(cats) && Elements(cats) <= Elements(offered) {
      forall c, d | 0 <= c < d < |cats| ensures requested.categories[c].key != requested.categories[d].key {
        assert cats[c] != cats[d];
      }
      forall c | 0 <= c < |cats| ensures HasKey(stored, requested.categories[c].key) {
        assert cats[c] in Elements(cats);
      }
    }
  }

  lemma KeysIff(selection: seq<RequestDimension>, stored: seq<Dimension>, key: Key)
    ensures Requests(selection, key) <==> key in Elements(KeysOf(AxesOfRequest(selection)))
    ensures Stores(stored, key) <==> key in Elements(KeysOf(AxesOf(stored)))
  {
    KeyMember(AxesOfRequest(selection), key);
    KeyMember(AxesOf(stored), key);
    if Requests(selection, key) {
      var i :| 0 <= i < |selection| && selection[i].code.key == key;
      assert AxesOfRequest(selection)[i].key == key;
    }
    if Stores(stored, key) {
      var j :| 0 <= j < |stored| && stored[j].code.key == key;
      assert AxesOf(stored)[j].key == key;
    }
  }

  lemma WithinIsChosen(selection: seq<RequestDimension>, stored: seq<Dimension>)
    requires WellFormed(AxesOfRequest(selection)) && Within(AxesOfRequest(selection), AxesOf(stored))
    ensures DimensionsChosen(selection, stored) && AllChosen(selection, stored)
  {
    var request, axes := AxesOfRequest(selection), AxesOf(stored);
    forall i, j | 0 <= i < j < |selection| ensures selection[i].code.key != selection[j].code.key {
      assert request[i].key != request[j].key;
    }
    forall i | 0 <= i < |selection| ensures Stores(stored, selection[i].code.key) {
      KeysIff(selection, stored, selection[i].code.key);
      assert Requests(selection, selection[i].code.key);
    }
    forall j | 0 <= j < |stored| ensures Requests(selection, stored[j].code.key) {
      KeysIff(selection, stored, stored[j].code.key);
      assert Stores(stored, stored[j].code.key);
    }
    forall i, j | 0 <= i < |selection| && 0 <= j < |stored| && selection[i].code.key == stored[j].code.key
      ensures CategoriesChosen(selection[i], stored[j])
    {
      assert request[i] == AxisOfRequest(selection[i]) && axes[j] == AxisOf(stored[j]);
      CategoriesIff(selection[i], stored[j]);
    }
  }

  lemma ChosenIsWithin(selection: seq<RequestDimension>, stored: seq<Dimension>)
    requires DimensionsChosen(selection, stored) && AllChosen(selection, stored)
    ensures WellFormed(AxesOfRequest(selection)) && Within(AxesOfRequest(selection), AxesOf(stored))
  {
    var request, axes := AxesOfRequest(selection), AxesOf(stored);
    forall key ensures key in Elements(KeysOf(request)) <==> key in Elements(KeysOf(axes)) {
      KeysIff(selection, stored, key);
    }
    forall i, j | 0 <= i < |request| && 0 <= j < |axes| && request[i].key == axes[j].key
      ensures request[i].cats != [] && Distinct(request[i].cats) && Elements(request[i].cats) <= Elements(axes[j].cats)
    {
      CategoriesIff(selection[i], stored[j]);
    }
    forall i | 0 <= i < |request| ensures request[i].cats != [] && Distinct(request[i].cats) {
      assert Stores(stored, selection[i].code.key);
      var j :| 0 <= j < |stored| && stored[j].code.key == selection[i].code.key;
      assert axes[j].key == request[i].key;
    }
  }

  lemma AcceptedIffWithin(selection: seq<Axis>, stored: seq<Axis>, maxCells: int)
    requires WellFormed(stored) && Count(stored) <= MAX_INT64
    ensures SelectionAccepted(selection, stored, maxCells)
            <==> selection != [] && WellFormed(selection) && Within(selection, stored) && Count(selection) <= maxCells
  {
    if SelectionAccepted(selection, stored, maxCells) {
      SelectedIsWithin(selection, stored, maxCells);
    }
    if selection != [] && WellFormed(selection) && Within(selection, stored) && Count(selection) <= maxCells {
      WithinIsSelected(selection, stored);
      SizesPositive(selection);
      CountAtMost(selection, stored);
    }
  }

  lemma WithinIsSelected(selection: seq<Axis>, stored: seq<Axis>)
    requires WellFormed(selection) && WellFormed(stored) && Within(selection, stored)
    ensures NamesSelected(selection, stored)
  {
    DistinctSize(KeysOf(selection));
    DistinctSize(KeysOf(stored));
    forall i | 0 <= i < |selection| ensures AxisSelected(selection[i], stored) {
      KeyMember(selection, selection[i].key);
      KeyMember(stored, selection[i].key);
      var j :| 0 <= j < |stored| && stored[j].key == selection[i].key;
      assert Offers(stored[j], selection[i]);
    }
  }

  /** The stored category a requested key selects. */
  ghost function StoredCategory(stored: Dimension, key: Key): Category {
    var v := PositionOf(AxisOf(stored).cats, key);
    if 0 <= v < |stored.categories| then stored.categories[v] else Category(Code([], []), 0)
  }

  ghost function StoredNamed(stored: seq<Dimension>, key: Key): Dimension {
    var j := PositionOf(KeysOf(AxesOf(stored)), key);
    if 0 <= j < |stored| then stored[j] else Dimension(Code([], []), 0, [])
  }

  /** A requested dimension in the answer: the stored spellings, in the requested order. */
  ghost function Answered(requested: RequestDimension, stored: Dimension, position: int): (answer: Dimension)
    ensures |answer.categories| == |requested.categories|
  {
    Dimension(stored.code, position, seq(|requested.categories|, j requires 0 <= j < |requested.categories| =>
      Category(StoredCategory(stored, requested.categories[j].key).code, j)))
  }

  ghost function AnsweredDimensions(selection: seq<RequestDimension>, stored: seq<Dimension>): (answer: seq<Dimension>)
    ensures |answer| == |selection|
  {
    seq(|selection|, i requires 0 <= i < |selection| =>
        Answered(selection[i], StoredNamed(stored, selection[i].code.key), i))
  }

  /** The stored positions of the requested categories of one dimension. */
  ghost function SelectedPositions(requested: RequestDimension, stored: Dimension): (positions: seq<int>)
    ensures |positions| == |requested.categories|
  {
    seq(|requested.categories|, j requires 0 <= j < |requested.categories| =>
        StoredCategory(stored, requested.categories[j].key).position)
  }

  lemma CategoryFound(stored: Dimension, key: Key, v: nat)
    requires Distinct(AxisOf(stored).cats) && v < |stored.categories| && stored.categories[v].code.key == key
    ensures StoredCategory(stored, key) == stored.categories[v]
  {
    assert AxisOf(stored).cats[v] == key;
  }

  method CategoriesByKey(stored: Dimension) returns (byKey: map<Key, Category>)
    requires Distinct(AxisOf(stored).cats)
    ensures byKey.Keys == Elements(AxisOf(stored).cats)
    ensures forall k :: k in byKey ==> byKey[k] == StoredCategory(stored, k)
  {
    ghost var offered := AxisOf(stored).cats;
    byKey := map[];
    for v := 0 to |stored.categories|
      invariant byKey.Keys == Elements(offered[..v])
      invariant forall k :: k in byKey ==> byKey[k] == StoredCategory(stored, k)
    {
      CategoryFound(stored, stored.categories[v].code.key, v);
      assert offered[..v + 1] == offered[..v] + [stored.categories[v].code.key];
      byKey := byKey[stored.categories[v].code.key := stored.categories[v]];
    }
    assert offered[..|stored.categories|] == offered;
  }

  lemma CategoryRefused(keys: seq<Key>, offered: seq<Key>, j: nat)
    requires j < |keys| && (keys[j] in keys[..j] || keys[j] !in Elements(offered))
    ensures !(Distinct(keys) && Elements(keys) <= Elements(offered))
  {
    assert keys[j] in Elements(keys);
  }

  /** One requested dimension: accepted exactly when its categories are different and all stored. */
  method ResolveCategories(requested: RequestDimension, stored: Dimension, position: int)
    returns (r: Result<(Dimension, seq<int>), SelectionError>)
    requires Distinct(AxisOf(stored).cats)
    ensures r.Ok? <==>
      && Distinct(AxisOfRequest(requested).cats)
      && Elements(AxisOfRequest(requested).cats) <= Elements(AxisOf(stored).cats)
    ensures r.Ok? ==>
      r.value.0 == Answered(requested, stored, position) && r.value.1 == SelectedPositions(requested, stored)
    ensures r.Err? ==> r.error.SelectedCategoryTwice? || r.error.UnknownCategory?
  {
    ghost var offered, keys := AxisOf(stored).cats, AxisOfRequest(requested).cats;
    var categoryByKey := CategoriesByKey(stored);
    var categories: seq<Category> := [];
    var positions: seq<int> := [];
    var seen: set<Key> := {};
    for j := 0 to |requested.categories|
      invariant seen == Elements(keys[..j]) && Distinct(keys[..j]) && seen <= Elements(offered)
      invariant categories == Answered(requested, stored, position).categories[..j]
      invariant positions == SelectedPositions(requested, stored)[..j]
    {
      var key := requested.categories[j].key;
      if key in seen {
        CategoryRefused(keys, offered, j);
        return Err(SelectedCategoryTwice);
      }
      if key !in categoryByKey {
        CategoryRefused(keys, offered, j);
        return Err(UnknownCategory);
      }
      assert keys[..j + 1] == keys[..j] + [key];
      DistinctSnoc(keys[..j], key);
      seen := seen + {key};
      categories := categories + [Category(categoryByKey[key].code, j)];
      positions := positions + [categoryByKey[key].position];
    }
    assert keys[..|requested.categories|] == keys;
    return Ok((Dimension(stored.code, position, categories), positions));
  }

  ghost predicate ByKey(stored: seq<Dimension>, storedByKey: map<Key, Dimension>) {
    && storedByKey.Keys == Elements(KeysOf(AxesOf(stored)))
    && forall j :: 0 <= j < |stored| ==>
         stored[j].code.key in storedByKey && storedByKey[stored[j].code.key] == stored[j]
  }

  lemma ByKeyStep(stored: seq<Dimension>, storedByKey: map<Key, Dimension>, i: nat)
    requires WellFormed(AxesOf(stored)) && i < |stored| && ByKey(stored[..i], storedByKey)
    ensures ByKey(stored[..i + 1], storedByKey[stored[i].code.key := stored[i]])
  {
    var axes := AxesOf(stored);
    assert KeysOf(AxesOf(stored[..i + 1])) == KeysOf(AxesOf(stored[..i])) + [stored[i].code.key];
    forall j | 0 <= j < i ensures stored[j].code.key != stored[i].code.key {
      assert axes[j].key != axes[i].key;
    }
    assert forall j :: 0 <= j < i ==> stored[..i + 1][j] == stored[..i][j];
  }

  method DimensionsByKey(stored: seq<Dimension>) returns (storedByKey: map<Key, Dimension>, storedSizes: seq<int>)
    requires WellFormed(AxesOf(stored)) && WellPlaced(stored)
    ensures ByKey(stored, storedByKey) && storedSizes == SizesOf(AxesOf(stored))
  {
    storedByKey := map[];
    storedSizes := seq(|stored|, _ => 0);
    for i := 0 to |stored|
      invariant ByKey(stored[..i], storedByKey)
      invariant |storedSizes| == |stored| && forall j :: 0 <= j < i ==> storedSizes[j] == |stored[j].categories|
    {
      ByKeyStep(stored, storedByKey, i);
      storedByKey := storedByKey[stored[i].code.key := stored[i]];
      storedSizes := storedSizes[stored[i].position := |stored[i].categories|];
    }
    assert stored[..|stored|] == stored;
  }

  lemma DimensionFound(stored: seq<Dimension>, storedByKey: map<Key, Dimension>, key: Key)
    requires WellFormed(AxesOf(stored)) && ByKey(stored, storedByKey) && key in storedByKey
    ensures storedByKey[key] == StoredNamed(stored, key) && storedByKey[key].code.key == key
    ensures Distinct(AxisOf(storedByKey[key]).cats)
    ensures forall axis: Axis :: axis.key == key ==>
      (AxisSelected(axis, AxesOf(stored)) <==>
         Distinct(axis.cats) && Elements(axis.cats) <= Elements(AxisOf(storedByKey[key]).cats))
  {
    var axes := AxesOf(stored);
    var j := PositionOf(KeysOf(axes), key);
    assert axes[j] == AxisOf(stored[j]);
    forall axis: Axis | axis.key == key && AxisSelected(axis, axes) ensures Offers(axes[j], axis) {
      var k :| 0 <= k < |axes| && Offers(axes[k], axis);
      assert k == j;
    }
  }

  // The loop over the requested dimensions.

  ghost function AllPositions(selection: seq<RequestDimension>, stored: seq<Dimension>): (positions: seq<seq<int>>)
    ensures |positions| == |selection|
  {
    seq(|selection|, i requires 0 <= i < |selection| =>
        SelectedPositions(selection[i], StoredNamed(stored, selection[i].code.key)))
  }

  /** The requested axes checked so far. */
  ghost predicate SelectedSoFar(selection: seq<Axis>, stored: seq<Axis>) {
    Distinct(KeysOf(selection)) && forall i :: 0 <= i < |selection| ==> AxisSelected(selection[i], stored)
  }

  lemma SelectedStep(selection: seq<Axis>, stored: seq<Axis>, n: nat)
    requires n < |selection| && SelectedSoFar(selection[..n], stored)
    ensures SelectedSoFar(selection[..n + 1], stored)
            <==> selection[n].key !in KeysOf(selection[..n]) && AxisSelected(selection[n], stored)
    ensures Elements(KeysOf(selection[..n + 1])) == Elements(KeysOf(selection[..n])) + {selection[n].key}
  {
    var before, after := selection[..n], selection[..n + 1];
    assert after == before + [selection[n]];
    assert KeysOf(after) == KeysOf(before) + [selection[n].key];
    DistinctSnoc(KeysOf(before), selection[n].key);
    assert after[n] == selection[n];
    assert forall i :: 0 <= i < n ==> after[i] == before[i];
  }

  lemma SelectionRefused(selection: seq<Axis>, stored: seq<Axis>, n: nat)
    requires n < |selection|
    ensures SelectedSoFar(selection, stored) ==> SelectedSoFar(selection[..n + 1], stored)
  {
    var after := selection[..n + 1];
    assert KeysOf(after) == KeysOf(selection)[..n + 1];
    if SelectedSoFar(selection, stored) {
      forall i | 0 <= i < |after| ensures AxisSelected(after[i], stored) {
        assert AxisSelected(selection[i], stored);
      }
    }
  }

  /** The answer and the stored positions of the first `n` requested dimensions. */
  ghost predicate Resolved(selection: seq<RequestDimension>, stored: seq<Dimension>, n: nat, output: seq<Dimension>,
                           positions: seq<seq<int>>)
    requires n <= |selection|
  {
    output == AnsweredDimensions(selection, stored)[..n] && positions == AllPositions(selection, stored)[..n]
  }

  lemma ResolvedStep(selection: seq<RequestDimension>, stored: seq<Dimension>, n: nat, output: seq<Dimension>,
                     positions: seq<seq<int>>, answered: Dimension, selected: seq<int>)
    requires n < |selection| && Resolved(selection, stored, n, output, positions)
    requires answered == Answered(selection[n], StoredNamed(stored, selection[n].code.key), n)
    requires selected == SelectedPositions(selection[n], StoredNamed(stored, selection[n].code.key))
    ensures Resolved(selection, stored, n + 1, output + [answered], positions + [selected])
  {
    assert AnsweredDimensions(selection, stored)[n] == answered;
    assert AllPositions(selection, stored)[n] == selected;
  }

  method ResolveDimensions(selection: seq<RequestDimension>, ghost stored: seq<Dimension>,
                           storedByKey: map<Key, Dimension>)
    returns (r: Result<(seq<Dimension>, seq<seq<int>>), SelectionError>)
    requires WellFormed(AxesOf(stored)) && ByKey(stored, storedByKey)
    ensures r.Ok? <==> SelectedSoFar(AxesOfRequest(selection), AxesOf(stored))
    ensures r.Ok? ==> r.value.0 == AnsweredDimensions(selection, stored)
    ensures r.Ok? ==> r.value.1 == AllPositions(selection, stored)
    ensures r.Err? ==> !r.error.SelectionSize?
  {
    ghost var axes, requested := AxesOf(stored), AxesOfRequest(selection);
    var output: seq<Dimension> := [];
    var positions: seq<seq<int>> := [];
    var seen: set<Key> := {};
    for i := 0 to |selection|
      invariant SelectedSoFar(requested[..i], axes)
      invariant seen == Elements(KeysOf(requested[..i]))
      invariant Resolved(selection, stored, i, output, positions)
    {
      SelectedStep(requested, axes, i);
      var key := selection[i].code.key;
      if key in seen {
        SelectionRefused(requested, axes, i);
        return Err(SelectedDimensionTwice);
      }
      seen := seen + {key};
      if key !in storedByKey {
        UnknownKey(requested[i], axes);
        SelectionRefused(requested, axes, i);
        return Err(UnknownDimension);
      }
      DimensionFound(stored, storedByKey, key);
      var resolved := ResolveCategories(selection[i], storedByKey[key], i);
      if resolved.Err? {
        SelectionRefused(requested, axes, i);
        return Err(resolved.error);
      }
      ResolvedStep(selection, stored, i, output, positions, resolved.value.0, resolved.value.1);
      output := output + [resolved.value.0];
      positions := positions + [resolved.value.1];
    }
    assert requested[..|selection|] == requested;
    return Ok((output, positions));
  }

  lemma UnknownKey(axis: Axis, stored: seq<Axis>)
    ensures AxisSelected(axis, stored) ==> axis.key in Elements(KeysOf(stored))
  {
    if AxisSelected(axis, stored) {
      var j :| 0 <= j < |stored| && Offers(stored[j], axis);
      assert KeysOf(stored)[j] == axis.key;
    }
  }

  // The loop over the output indexes.

  /** The stored coordinates once the first `p` requested categories have been written. */
  ghost function PlacedUpTo(selection: seq<RequestDimension>, stored: seq<Dimension>, coords: seq<int>, p: nat)
    : seq<int>
    requires WellFormed(AxesOfRequest(selection))
    requires InCube(coords, SizesOf(AxesOfRequest(selection))) && p <= |selection|
  {
    Placed(AxesOf(stored), NamesUpTo(AxesOfRequest(selection), coords, p))
  }

  /** Writing one requested category into the stored coordinates. */
  lemma PlaceSelected(selection: seq<RequestDimension>, stored: seq<Dimension>, coords: seq<int>, p: nat)
    requires WellFormed(AxesOfRequest(selection)) && WellFormed(AxesOf(stored)) && WellPlaced(stored)
    requires Within(AxesOfRequest(selection), AxesOf(stored))
    requires InCube(coords, SizesOf(AxesOfRequest(selection))) && p < |selection|
    ensures selection[p].code.key in Elements(KeysOf(AxesOf(stored)))
    ensures 0 <= coords[p] < |AllPositions(selection, stored)[p]|
    ensures 0 <= StoredNamed(stored, selection[p].code.key).position < |stored|
    ensures |PlacedUpTo(selection, stored, coords, p)| == |stored|
    ensures PlacedUpTo(selection, stored, coords, p + 1)
            == PlacedUpTo(selection, stored, coords, p)
                 [StoredNamed(stored, selection[p].code.key).position := AllPositions(selection, stored)[p][coords[p]]]
  {
    var request, axes, key := AxesOfRequest(selection), AxesOf(stored), selection[p].code.key;
    assert request[p] == AxisOfRequest(selection[p]) && KeysOf(request)[p] == key;
    assert key in Elements(KeysOf(request));
    var j := PositionOf(KeysOf(axes), key);
    assert axes[j] == AxisOf(stored[j]);
    var cat := request[p].cats[coords[p]];
    assert cat in Elements(request[p].cats) && cat in Elements(axes[j].cats);
    var v := PositionOf(axes[j].cats, cat);
    NamesStep(request, coords, p);
    PlacedStep(axes, NamesUpTo(request, coords, p), j, v);
  }

  lemma NothingPlaced(selection: seq<RequestDimension>, stored: seq<Dimension>, coords: seq<int>)
    requires WellFormed(AxesOfRequest(selection)) && InCube(coords, SizesOf(AxesOfRequest(selection)))
    ensures PlacedUpTo(selection, stored, coords, 0) == seq(|stored|, _ => 0)
  {
  }

  method PlaceCoordinates(selection: seq<RequestDimension>, ghost stored: seq<Dimension>, storedCount: nat,
                          storedByKey: map<Key, Dimension>, positions: seq<seq<int>>, coords: seq<int>)
    returns (storedCoordinates: seq<int>)
    requires WellFormed(AxesOfRequest(selection)) && WellFormed(AxesOf(stored)) && WellPlaced(stored)
    requires Within(AxesOfRequest(selection), AxesOf(stored)) && storedCount == |stored|
    requires ByKey(stored, storedByKey) && positions == AllPositions(selection, stored)
    requires InCube(coords, SizesOf(AxesOfRequest(selection)))
    ensures storedCoordinates == PlacedUpTo(selection, stored, coords, |selection|)
  {
    NothingPlaced(selection, stored, coords);
    storedCoordinates := seq(storedCount, _ => 0);
    for p := 0 to |selection|
      invariant storedCoordinates == PlacedUpTo(selection, stored, coords, p)
    {
      PlaceSelected(selection, stored, coords, p);
      DimensionFound(stored, storedByKey, selection[p].code.key);
      storedCoordinates := storedCoordinates[storedByKey[selection[p].code.key].position := positions[p][coords[p]]];
    }
  }

  /** One output index: decompose it in the requested cube, place its categories, recompose in the stored cube. None of
      the error returns is taken. */
  method ResolveIndex(selection: seq<RequestDimension>, ghost stored: seq<Dimension>, storedByKey: map<Key, Dimension>,
                      positions: seq<seq<int>>, storedSizes: seq<int>, storedStrides: seq<int>, outputSizes: seq<int>,
                      outputStrides: seq<int>, outputIndex: int)
    returns (r: Result<int, IndexError>)
    requires WellFormed(AxesOfRequest(selection)) && WellFormed(AxesOf(stored)) && WellPlaced(stored)
    requires Within(AxesOfRequest(selection), AxesOf(stored)) && selection != []
    requires ByKey(stored, storedByKey) && positions == AllPositions(selection, stored)
    requires storedSizes == SizesOf(AxesOf(stored))
    requires storedStrides == StridesOf(storedSizes) && Product(storedSizes) <= MAX_INT64
    requires outputSizes == SizesOf(AxesOfRequest(selection)) && outputStrides == StridesOf(outputSizes)
    requires 0 <= outputIndex < Count(AxesOfRequest(selection))
    ensures r == Ok(StoredIndex(AxesOfRequest(selection), AxesOf(stored), outputIndex))
  {
    SizesPositive(AxesOfRequest(selection));
    FlattenOfUnflatten(outputIndex, outputSizes);
    var coords := Coordinates(outputIndex, outputSizes, outputStrides);
    if coords.Err? {
      assert false;
    }
    var storedCoordinates := PlaceCoordinates(selection, stored, |storedSizes|, storedByKey, positions, coords.value);
    PlacedAll(AxesOfRequest(selection), AxesOf(stored), coords.value);
    PlacedIsNamed(AxesOfRequest(selection), AxesOf(stored), outputIndex);
    r := CellIndex(storedCoordinates, storedSizes, storedStrides);
  }

  /** The answer to a selection: for every output index the stored index that names the same cell. */
  ghost predicate ListsSelection(selection: seq<RequestDimension>, stored: seq<Dimension>, indices: seq<int>) {
    var requested, axes := AxesOfRequest(selection), AxesOf(stored);
    && WellFormed(requested) && WellFormed(axes) && |indices| == Count(requested)
    && forall k :: 0 <= k < |indices| ==> indices[k] == StoredIndex(requested, axes, k)
  }

  method ResolveIndices(selection: seq<RequestDimension>, ghost stored: seq<Dimension>,
                        storedByKey: map<Key, Dimension>, positions: seq<seq<int>>, storedSizes: seq<int>,
                        outputSizes: seq<int>, count: nat)
    returns (r: Result<seq<int>, IndexError>)
    requires WellFormed(AxesOfRequest(selection)) && WellFormed(AxesOf(stored)) && WellPlaced(stored)
    requires Within(AxesOfRequest(selection), AxesOf(stored)) && selection != []
    requires ByKey(stored, storedByKey) && positions == AllPositions(selection, stored)
    requires storedSizes == SizesOf(AxesOf(stored)) && Product(storedSizes) <= MAX_INT64
    requires outputSizes == SizesOf(AxesOfRequest(selection)) && count == Product(outputSizes) <= MAX_INT64
    ensures r.Ok? && ListsSelection(selection, stored, r.value)
  {
    SizesPositive(AxesOf(stored));
    SizesPositive(AxesOfRequest(selection));
    var strides := Strides(storedSizes);
    var storedStrides := strides[..];
    strides := Strides(outputSizes);
    var outputStrides := strides[..];
    var indices: seq<int> := seq(count, _ => 0);
    for outputIndex := 0 to count
      invariant |indices| == count
      invariant forall k :: 0 <= k < outputIndex ==>
        indices[k] == StoredIndex(AxesOfRequest(selection), AxesOf(stored), k)
    {
      var index := ResolveIndex(selection, stored, storedByKey, positions, storedSizes, storedStrides,
                                outputSizes, outputStrides, outputIndex);
      if index.Err? {
        assert false;
      }
      indices := indices[outputIndex := index.value];
    }
    return Ok(indices);
  }

  /** Succeeds exactly on a choice of categories from every stored dimension whose product is within the limit; lists
      one stored index per output index, the one with the same name. Of the errors after the count check none occurs. */
  method ResolveSelection(selection: seq<RequestDimension>, stored: seq<Dimension>, maxCells: int)
    returns (r: Result<(seq<Dimension>, seq<int>), SelectionError>)
    requires WellFormed(AxesOf(stored)) && WellPlaced(stored) && Count(AxesOf(stored)) <= MAX_INT64
    ensures r.Ok? <==> SelectionAccepted(AxesOfRequest(selection), AxesOf(stored), maxCells)
    ensures r.Ok? ==> r.value.0 == AnsweredDimensions(selection, stored)
    ensures r.Ok? ==> ListsSelection(selection, stored, r.value.1)
    ensures r.Err? && r.error.SelectionSize? <==>
            NamesSelected(AxesOfRequest(selection), AxesOf(stored))
              && !SelectionAccepted(AxesOfRequest(selection), AxesOf(stored), maxCells)
    ensures r.Err? && r.error.SelectionSize? ==> SizeError(SizesOf(AxesOfRequest(selection)), maxCells, r.error.product)
  {
    ghost var requested, axes := AxesOfRequest(selection), AxesOf(stored);
    if |selection| != |stored| {
      return Err(WrongDimensionCount);
    }
    var storedByKey, storedSizes := DimensionsByKey(stored);
    var resolved := ResolveDimensions(selection, stored, storedByKey);
    if resolved.Err? {
      return Err(resolved.error);
    }
    var outputSizes := SizesOfRequest(selection);
    var count := CheckedProduct(outputSizes, maxCells);
    if count.Err? {
      return Err(SelectionSize(count.error));
    }
    SelectedIsWithin(requested, axes, maxCells);
    var indices := ResolveIndices(selection, stored, storedByKey, resolved.value.1, storedSizes, outputSizes,
                                  count.value);
    if indices.Err? {
      assert false;
    }
    return Ok((resolved.value.0, indices.value));
  }
}
