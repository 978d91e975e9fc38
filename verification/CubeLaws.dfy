/** What remapReplacement and ResolveSelection, written independently, have to agree on. Both are proved to keep the
    name of every cell; since names determine indexes, everything here follows from that. */
module CubeLaws {
  import opened Basics
  import opened Index
  import opened Model
  import opened Naming
  import opened Structure
  import opened Remap
  import opened Selection

  /** The name of stored cell `s` only uses categories that the selection lists. */
  ghost predicate Chosen(selection: seq<Axis>, stored: seq<Axis>, s: int)
    requires WellFormed(stored)
  {
    0 <= s < Count(stored) &&
    forall i :: 0 <= i < |selection| ==>
      selection[i].key in NameOf(stored, s) && NameOf(stored, s)[selection[i].key] in selection[i].cats
  }

  lemma ChosenIsNamed(selection: seq<Axis>, stored: seq<Axis>, s: int)
    requires WellFormed(selection) && WellFormed(stored) && Within(selection, stored) && Chosen(selection, stored, s)
    ensures 0 <= IndexNamed(selection, NameOf(stored, s)) < Count(selection)
    ensures NameOf(selection, IndexNamed(selection, NameOf(stored, s))) == NameOf(stored, s)
  {
    SizesPositive(stored);
    FlattenOfUnflatten(s, SizesOf(stored));
    var name := NameOf(stored, s);
    var c := Placed(selection, name);
    forall i | 0 <= i < |selection|
      ensures 0 <= c[i] < |selection[i].cats| && selection[i].cats[c[i]] == name[selection[i].key]
    {
      assert name[selection[i].key] in selection[i].cats;
    }
    var u := Unflatten(s, SizesOf(stored));
    forall j | 0 <= j < |stored| ensures stored[j].cats[u[j]] == name[stored[j].key] {
      NamesLookup(stored, u, j);
    }
    SameNames(selection, c, stored, u);
    NameOfFlatten(selection, c);
    IndexNamedUnique(selection, Flatten(c, SizesOf(selection)));
  }

  lemma NamedIsChosen(selection: seq<Axis>, stored: seq<Axis>, k: int)
    requires WellFormed(selection) && WellFormed(stored) && Within(selection, stored) && 0 <= k < Count(selection)
    ensures Chosen(selection, stored, StoredIndex(selection, stored, k))
  {
    NameWithin(selection, stored, k);
    SizesPositive(selection);
    FlattenOfUnflatten(k, SizesOf(selection));
    var c := Unflatten(k, SizesOf(selection));
    forall i | 0 <= i < |selection|
      ensures selection[i].key in NameOf(selection, k) && NameOf(selection, k)[selection[i].key] in selection[i].cats
    {
      NamesLookup(selection, c, i);
    }
  }

  lemma ListedNames(selection: seq<RequestDimension>, stored: seq<Dimension>, indices: seq<int>, k: nat)
    requires ListsSelection(selection, stored, indices)
    requires Within(AxesOfRequest(selection), AxesOf(stored)) && k < |indices|
    ensures k < Count(AxesOfRequest(selection)) && 0 <= indices[k] < Count(AxesOf(stored))
    ensures NameOf(AxesOf(stored), indices[k]) == NameOf(AxesOfRequest(selection), k)
    ensures Chosen(AxesOfRequest(selection), AxesOf(stored), indices[k])
  {
    NameWithin(AxesOfRequest(selection), AxesOf(stored), k);
    NamedIsChosen(AxesOfRequest(selection), AxesOf(stored), k);
  }

  lemma ListedOnce(selection: seq<RequestDimension>, stored: seq<Dimension>, indices: seq<int>, k: nat, l: nat)
    requires ListsSelection(selection, stored, indices) && Within(AxesOfRequest(selection), AxesOf(stored))
    requires k < |indices| && l < |indices| && indices[k] == indices[l]
    ensures k == l
  {
    ListedNames(selection, stored, indices, k);
    ListedNames(selection, stored, indices, l);
    NameOfInjective(AxesOfRequest(selection), k, l);
  }

  lemma ChosenIsListed(selection: seq<RequestDimension>, stored: seq<Dimension>, indices: seq<int>, s: int)
    requires ListsSelection(selection, stored, indices) && Within(AxesOfRequest(selection), AxesOf(stored))
    requires Chosen(AxesOfRequest(selection), AxesOf(stored), s)
    ensures s in indices
  {
    var requested, axes := AxesOfRequest(selection), AxesOf(stored);
    ChosenIsNamed(requested, axes, s);
    var k := IndexNamed(requested, NameOf(axes, s));
    IndexNamedUnique(axes, s);
    assert indices[k] == s;
  }

  /** A successful selection lists exactly the requested Cartesian product: every listed index names, in the stored
      cube, the categories of its output position; no index is listed twice; and every stored cell whose categories are
      all selected is listed. */
  lemma SelectionIsExact(selection: seq<RequestDimension>, stored: seq<Dimension>, indices: seq<int>)
    requires ListsSelection(selection, stored, indices) && Within(AxesOfRequest(selection), AxesOf(stored))
    ensures forall k :: 0 <= k < |indices| ==> 0 <= indices[k] < Count(AxesOf(stored))
    ensures forall k :: 0 <= k < |indices| ==> NameOf(AxesOf(stored), indices[k]) == NameOf(AxesOfRequest(selection), k)
    ensures Distinct(indices)
    ensures forall s :: s in indices <==> Chosen(AxesOfRequest(selection), AxesOf(stored), s)
  {
    var requested, axes := AxesOfRequest(selection), AxesOf(stored);
    forall k | 0 <= k < |indices|
      ensures 0 <= indices[k] < Count(axes) && NameOf(axes, indices[k]) == NameOf(requested, k)
      ensures Chosen(requested, axes, indices[k])
    {
      ListedNames(selection, stored, indices, k);
    }
    forall k, l | 0 <= k < l < |indices| ensures indices[k] != indices[l] {
      if indices[k] == indices[l] {
        ListedOnce(selection, stored, indices, k, l);
      }
    }
    forall s ensures s in indices <==> Chosen(requested, axes, s) {
      if Chosen(requested, axes, s) {
        ChosenIsListed(selection, stored, indices, s);
      }
    }
  }

  /** The list is in row-major requested order: of two positions the smaller has the earlier coordinates, and each holds
      the stored index of the cell that its coordinates name. */
  lemma SelectionIsRowMajor(selection: seq<RequestDimension>, stored: seq<Dimension>, indices: seq<int>, k: nat, l: nat)
    requires ListsSelection(selection, stored, indices) && Within(AxesOfRequest(selection), AxesOf(stored))
    requires k < |indices| && l < |indices|
    ensures var requested, sizes := AxesOfRequest(selection), SizesOf(AxesOfRequest(selection));
      && Positive(sizes) && InCube(Unflatten(k, sizes), sizes)
      && (k < l <==> Before(Unflatten(k, sizes), Unflatten(l, sizes)))
      && 0 <= indices[k] < Count(AxesOf(stored))
      && NameOf(AxesOf(stored), indices[k]) == Names(requested, Unflatten(k, sizes))
  {
    var sizes := SizesOf(AxesOfRequest(selection));
    ListedNames(selection, stored, indices, k);
    SizesPositive(AxesOfRequest(selection));
    FlattenOfUnflatten(k, sizes);
    FlattenOfUnflatten(l, sizes);
    FlattenIsRowMajor(Unflatten(k, sizes), Unflatten(l, sizes), sizes);
  }

  /** Selecting every category, in any order, lists every stored index once. */
  lemma FullSelectionPermutes(selection: seq<RequestDimension>, stored: seq<Dimension>, indices: seq<int>)
    requires ListsSelection(selection, stored, indices) && SameCube(AxesOfRequest(selection), AxesOf(stored))
    ensures Distinct(indices) && |indices| == Count(AxesOf(stored))
    ensures forall s :: s in indices <==> 0 <= s < Count(AxesOf(stored))
  {
    SelectionIsExact(selection, stored, indices);
    SameCount(AxesOfRequest(selection), AxesOf(stored));
    DistinctBelow(indices);
  }

  lemma DistinctBelow(indices: seq<int>)
    requires Distinct(indices) && forall k :: 0 <= k < |indices| ==> 0 <= indices[k] < |indices|
    ensures forall s :: s in indices <==> 0 <= s < |indices|
  {
    Pigeonhole(indices, Below(|indices|));
    forall s ensures s in indices <==> 0 <= s < |indices| {
      assert s in indices <==> s in Elements(indices);
    }
  }

  /** Where keys agree, codes do: the answer spells every dimension and category as it is stored. */
  ghost predicate SpelledAsStored(answer: seq<Dimension>, stored: seq<Dimension>) {
    forall i, j :: 0 <= i < |answer| && 0 <= j < |stored| && answer[i].code.key == stored[j].code.key ==>
      answer[i].code == stored[j].code && CategoriesSpelledAs(answer[i], stored[j])
  }

  ghost predicate CategoriesSpelledAs(answer: Dimension, stored: Dimension) {
    forall c, d :: 0 <= c < |answer.categories| && 0 <= d < |stored.categories| ==>
      answer.categories[c].code.key == stored.categories[d].code.key ==>
        answer.categories[c].code == stored.categories[d].code
  }

  lemma AnswerAxis(requested: RequestDimension, stored: Dimension, position: int)
    requires Distinct(AxisOf(stored).cats) && Elements(AxisOfRequest(requested).cats) <= Elements(AxisOf(stored).cats)
    requires requested.code.key == stored.code.key
    ensures AxisOf(Answered(requested, stored, position)) == AxisOfRequest(requested)
    ensures CategoriesSpelledAs(Answered(requested, stored, position), stored)
  {
    var answer, keys, cats := Answered(requested, stored, position), AxisOfRequest(requested).cats, AxisOf(stored).cats;
    forall c | 0 <= c < |keys| ensures AxisOf(answer).cats[c] == keys[c] {
      assert keys[c] in Elements(keys);
      assert keys[c] in cats;
    }
    forall c, d | 0 <= c < |answer.categories| && 0 <= d < |stored.categories|
      && answer.categories[c].code.key == stored.categories[d].code.key
      ensures answer.categories[c].code == stored.categories[d].code
    {
      assert keys[c] in Elements(keys);
      assert keys[c] in cats && cats[PositionOf(cats, keys[c])] == keys[c] == cats[d];
    }
  }

  lemma StoredNamedIs(stored: seq<Dimension>, j: nat)
    requires WellFormed(AxesOf(stored)) && j < |stored|
    ensures StoredNamed(stored, stored[j].code.key) == stored[j]
  {
    var keys := KeysOf(AxesOf(stored));
    assert keys[j] == stored[j].code.key && keys[j] in keys;
    assert AxesOf(stored)[PositionOf(keys, keys[j])].key == AxesOf(stored)[j].key;
  }

  /** The answer's structure names exactly what was requested, placed in the requested order, spelled as stored, and can
      serve as a stored structure itself. */
  lemma AnswerIsSelection(selection: seq<RequestDimension>, stored: seq<Dimension>)
    requires WellFormed(AxesOf(stored)) && Within(AxesOfRequest(selection), AxesOf(stored))
    ensures AxesOf(AnsweredDimensions(selection, stored)) == AxesOfRequest(selection)
    ensures WellPlaced(AnsweredDimensions(selection, stored))
    ensures SpelledAsStored(AnsweredDimensions(selection, stored), stored)
  {
    var answer, requested, axes := AnsweredDimensions(selection, stored), AxesOfRequest(selection), AxesOf(stored);
    forall i, j | 0 <= i < |selection| && 0 <= j < |stored| && selection[i].code.key == stored[j].code.key
      ensures AxisOf(answer[i]) == requested[i] && answer[i].code == stored[j].code
      ensures CategoriesSpelledAs(answer[i], stored[j])
    {
      assert requested[i] == AxisOfRequest(selection[i]) && axes[j] == AxisOf(stored[j]);
      StoredNamedIs(stored, j);
      AnswerAxis(selection[i], stored[j], i);
    }
    forall i | 0 <= i < |selection| ensures AxisOf(answer[i]) == requested[i] {
      KeyMember(requested, requested[i].key);
      KeyMember(axes, requested[i].key);
      var j :| 0 <= j < |axes| && axes[j].key == requested[i].key;
      assert axes[j] == AxisOf(stored[j]) && requested[i] == AxisOfRequest(selection[i]);
    }
  }

  /** Selecting from a selection: the indexes compose. */
  lemma SelectionsCompose(first: seq<RequestDimension>, second: seq<RequestDimension>, stored: seq<Dimension>,
                          indices1: seq<int>, indices2: seq<int>, indices: seq<int>)
    requires Within(AxesOfRequest(first), AxesOf(stored)) && ListsSelection(first, stored, indices1)
    requires Within(AxesOfRequest(second), AxesOf(AnsweredDimensions(first, stored)))
    requires ListsSelection(second, AnsweredDimensions(first, stored), indices2)
    requires ListsSelection(second, stored, indices)
    ensures |indices| == |indices2|
    ensures forall k :: 0 <= k < |indices| ==> 0 <= indices2[k] < |indices1| && indices[k] == indices1[indices2[k]]
  {
    AnswerIsSelection(first, stored);
    forall k | 0 <= k < |indices| ensures 0 <= indices2[k] < |indices1| && indices[k] == indices1[indices2[k]] {
      NameWithin(AxesOfRequest(second), AxesOfRequest(first), k);
    }
  }

  /** Canonical form: two payloads that describe one cube, in whatever order of dimensions and categories, and that give
      every named cell the same content, are stored as the same keys at the same positions and the same list of
      cells. */
  lemma StoredFormIsCanonical(a: seq<RequestDimension>, cellsA: map<int, Content>, storedA: seq<Cell>,
                              b: seq<RequestDimension>, cellsB: map<int, Content>, storedB: seq<Cell>)
    requires WellFormed(AxesOfRequest(a)) && WellFormed(AxesOfRequest(b))
    requires SameCube(AxesOfRequest(a), AxesOfRequest(b))
    requires SameContents(AxesOfRequest(a), cellsA, AxesOfRequest(b), cellsB)
    requires StoredCells(a, cellsA, storedA) && StoredCells(b, cellsB, storedB)
    ensures AxesOf(StoredDimensions(a)) == AxesOf(StoredDimensions(b))
    ensures storedA == storedB
  {
    StoredIsCanonical(a);
    StoredIsCanonical(b);
    var request, axes := AxesOfRequest(a), AxesOf(StoredDimensions(a));
    SameCubeTransitive(axes, request, AxesOfRequest(b));
    SameCubeTransitive(axes, AxesOfRequest(b), AxesOf(StoredDimensions(b)));
    SortedUnique(axes, AxesOf(StoredDimensions(b)));
    MovedAlike(request, cellsA, AxesOfRequest(b), cellsB, axes);
    AscendingCellsUnique(storedA, storedB);
  }

  /** The same partial function from assignments of categories to cell contents. */
  ghost predicate SameContents(a: seq<Axis>, cellsA: map<int, Content>, b: seq<Axis>, cellsB: map<int, Content>)
    requires WellFormed(a) && WellFormed(b)
  {
    forall k, l :: 0 <= k < Count(a) && 0 <= l < Count(b) && NameOf(a, k) == NameOf(b, l) ==>
      (k in cellsA <==> l in cellsB) && (k in cellsA ==> cellsA[k] == cellsB[l])
  }

  lemma OriginsAlike(a: seq<Axis>, cellsA: map<int, Content>, b: seq<Axis>, cellsB: map<int, Content>,
                     stored: seq<Axis>, s: nat)
    requires WellFormed(a) && WellFormed(b) && WellFormed(stored) && SameCube(stored, a) && SameCube(stored, b)
    requires SameContents(a, cellsA, b, cellsB) && s < Count(stored)
    ensures StoredIndex(stored, a, s) in cellsA <==> StoredIndex(stored, b, s) in cellsB
    ensures StoredIndex(stored, a, s) in cellsA ==>
      cellsA[StoredIndex(stored, a, s)] == cellsB[StoredIndex(stored, b, s)]
  {
    NameWithin(stored, a, s);
    NameWithin(stored, b, s);
  }

  lemma PulledAlike(p: seq<int>, cellsA: map<int, Content>, q: seq<int>, cellsB: map<int, Content>)
    requires |p| == |q| && forall s :: 0 <= s < |p| ==> (p[s] in cellsA <==> q[s] in cellsB)
    requires forall s :: 0 <= s < |p| && p[s] in cellsA ==> cellsA[p[s]] == cellsB[q[s]]
    ensures Pulled(p, cellsA) == Pulled(q, cellsB)
  {
    forall s: int ensures s in Pulled(p, cellsA) <==> s in Pulled(q, cellsB) {
      PulledAt(p, cellsA, s);
      PulledAt(q, cellsB, s);
    }
  }

  lemma MovedAlike(a: seq<Axis>, cellsA: map<int, Content>, b: seq<Axis>, cellsB: map<int, Content>, stored: seq<Axis>)
    requires WellFormed(a) && WellFormed(b) && WellFormed(stored) && SameCube(stored, a) && SameCube(stored, b)
    requires SameContents(a, cellsA, b, cellsB)
    ensures Moved(a, stored, cellsA) == Moved(b, stored, cellsB)
  {
    var p, q := Origins(a, stored), Origins(b, stored);
    forall s | 0 <= s < |p|
      ensures (p[s] in cellsA <==> q[s] in cellsB) && (p[s] in cellsA ==> cellsA[p[s]] == cellsB[q[s]])
    {
      OriginsAlike(a, cellsA, b, cellsB, stored, s);
    }
    PulledAlike(p, cellsA, q, cellsB);
  }

  lemma SameCubeTransitive(a: seq<Axis>, b: seq<Axis>, c: seq<Axis>)
    requires SameCube(a, b) && SameCube(b, c)
    ensures SameCube(a, c)
  {
    forall i, j | 0 <= i < |a| && 0 <= j < |c| && a[i].key == c[j].key
      ensures Elements(a[i].cats) == Elements(c[j].cats)
    {
      KeyMember(a, a[i].key);
      KeyMember(b, a[i].key);
      var k :| 0 <= k < |b| && b[k].key == a[i].key;
    }
  }
}
