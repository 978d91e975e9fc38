/** Structure parsing: parseCategories and parseRequestDimensions (internal/domain/payload.go). Go visits a map in an
    arbitrary order, so the loops below take any remaining entry; the contracts do not mention an order. */
module Structure {
  import opened Basics
  import opened Index
  import opened Model
  import opened Naming

  datatype CategoryError = NoCategories | BadCategoryCode | DuplicateCategory | BadPosition

  datatype StructureError =
    | DimensionCount
    | BadDimensionCode
    | DuplicateDimension
    | DifferentDimensions
    | BadIdCode
    | DuplicateId
    | MissingDimension
    | Categories(reason: CategoryError)
    | Size(product: ProductError)

  /** The category index of one dimension, spelling to position. */
  type CategoryIndex = map<Bytes, int>

  datatype KeyedDimension = KeyedDimension(code: Code, index: CategoryIndex)

  function KeyOf(normalize: Normalizer, spelling: Bytes): Key {
    if spelling in normalize then normalize[spelling] else []
  }

  /** Every spelling has a key and no two spellings share one. */
  predicate DistinctCodes(spellings: set<Bytes>, normalize: Normalizer) {
    && (forall s :: s in spellings ==> s in normalize)
    && (forall s, t :: s in spellings && t in spellings && KeyOf(normalize, s) == KeyOf(normalize, t) ==> s == t)
  }

  /** The positions are a permutation of 0..n-1: each in range, none shared. */
  predicate Permutes(index: CategoryIndex) {
    && (forall s :: s in index ==> 0 <= index[s] < |index|)
    && (forall s, t :: s in index && t in index && index[s] == index[t] ==> s == t)
  }

  predicate CategoriesAccepted(index: CategoryIndex, normalize: Normalizer) {
    index != map[] && DistinctCodes(index.Keys, normalize) && Permutes(index)
  }

  ghost function SpellingAt(index: CategoryIndex, position: int): Bytes {
    if exists s :: s in index && index[s] == position then var s :| s in index && index[s] == position; s else []
  }

  /** The categories in the payload's order. */
  ghost function CategoriesFor(index: CategoryIndex, normalize: Normalizer): (categories: seq<Code>)
    ensures |categories| == |index|
  {
    seq(|index|, p requires 0 <= p < |index| => Code(SpellingAt(index, p), KeyOf(normalize, SpellingAt(index, p))))
  }

  lemma {:induction false} InjectiveValues(m: CategoryIndex)
    requires forall s, t :: s in m && t in m && m[s] == m[t] ==> s == t
    ensures |m.Values| == |m|
  {
    if m == map[] {
      assert m.Values == {};
    } else {
      var s :| s in m;
      var rest := m - {s};
      InjectiveValues(rest);
      assert m.Values == rest.Values + {m[s]};
    }
  }

  /** Pigeonhole: n different positions below n fill every slot, so no category is left blank. */
  lemma SlotsFilled(index: CategoryIndex, position: int)
    requires Permutes(index) && 0 <= position < |index|
    ensures SpellingAt(index, position) in index && index[SpellingAt(index, position)] == position
  {
    InjectiveValues(index);
    SubsetOfSameSize(index.Values, Below(|index|));
    assert position in index.Values;
  }

  // The loop over a map: `visited` is what Go has ranged over so far.

  ghost function KeysIn(visited: set<Bytes>, normalize: Normalizer): set<Key> {
    set s | s in visited :: KeyOf(normalize, s)
  }

  lemma KeysInStep(visited: set<Bytes>, spelling: Bytes, normalize: Normalizer)
    ensures KeysIn(visited + {spelling}, normalize) == KeysIn(visited, normalize) + {KeyOf(normalize, spelling)}
  {
  }

  /** A new key keeps the codes distinct. */
  lemma NewKey(visited: set<Bytes>, spelling: Bytes, normalize: Normalizer)
    requires DistinctCodes(visited, normalize)
    requires spelling in normalize && KeyOf(normalize, spelling) !in KeysIn(visited, normalize)
    ensures DistinctCodes(visited + {spelling}, normalize)
  {
    forall s | s in visited ensures KeyOf(normalize, s) != KeyOf(normalize, spelling) {
      assert KeyOf(normalize, s) in KeysIn(visited, normalize);
    }
  }

  /** A key seen before refuses the whole map. */
  lemma OldKey(visited: set<Bytes>, spelling: Bytes, all: set<Bytes>, normalize: Normalizer)
    requires visited <= all && spelling in all && spelling !in visited
    requires KeyOf(normalize, spelling) in KeysIn(visited, normalize)
    ensures !DistinctCodes(all, normalize)
  {
    var s :| s in visited && KeyOf(normalize, s) == KeyOf(normalize, spelling);
    assert s in all && spelling in all;
  }

  /** The slots that hold a category are those of the visited spellings, each with its own. */
  ghost predicate Filled(visited: set<Bytes>, index: CategoryIndex, normalize: Normalizer, categories: seq<Code>,
                         occupied: seq<bool>)
  {
    && |categories| == |occupied| == |index| && visited <= index.Keys
    && (forall s :: s in visited ==> 0 <= index[s] < |index| && occupied[index[s]])
    && (forall p :: 0 <= p < |index| && occupied[p] ==>
         && categories[p].spelling in visited && index[categories[p].spelling] == p
         && categories[p].key == KeyOf(normalize, categories[p].spelling))
    && (forall s :: s in visited ==> categories[index[s]].spelling == s)
  }

  lemma FilledIsInjective(visited: set<Bytes>, index: CategoryIndex, normalize: Normalizer, categories: seq<Code>,
                          occupied: seq<bool>)
    requires Filled(visited, index, normalize, categories, occupied)
    ensures forall s, t :: s in visited && t in visited && index[s] == index[t] ==> s == t
  {
  }

  lemma AllFilled(index: CategoryIndex, normalize: Normalizer, categories: seq<Code>, occupied: seq<bool>)
    requires Filled(index.Keys, index, normalize, categories, occupied)
    ensures Permutes(index) && categories == CategoriesFor(index, normalize)
  {
    FilledIsInjective(index.Keys, index, normalize, categories, occupied);
    forall p | 0 <= p < |index| ensures categories[p] == CategoriesFor(index, normalize)[p] {
      SlotsFilled(index, p);
    }
  }

  /** The state of the loop once `visited` has been ranged over. */
  ghost predicate CategoriesSoFar(visited: set<Bytes>, index: CategoryIndex, normalize: Normalizer, keys: set<Key>,
                                  categories: seq<Code>, occupied: seq<bool>) {
    DistinctCodes(visited, normalize) && keys == KeysIn(visited, normalize)
      && Filled(visited, index, normalize, categories, occupied)
  }

  lemma CategoriesStep(visited: set<Bytes>, index: CategoryIndex, normalize: Normalizer, keys: set<Key>,
                       categories: seq<Code>, occupied: seq<bool>, spelling: Bytes)
    requires CategoriesSoFar(visited, index, normalize, keys, categories, occupied)
    requires spelling in index && spelling !in visited && spelling in normalize && normalize[spelling] !in keys
    requires 0 <= index[spelling] < |index| && !occupied[index[spelling]]
    ensures CategoriesSoFar(visited + {spelling}, index, normalize, keys + {normalize[spelling]},
                            categories[index[spelling] := Code(spelling, normalize[spelling])],
                            occupied[index[spelling] := true])
  {
    NewKey(visited, spelling, normalize);
    KeysInStep(visited, spelling, normalize);
  }

  /** A key seen before, or a position out of range or taken, refuses the whole index. */
  lemma CategoriesRefused(visited: set<Bytes>, index: CategoryIndex, normalize: Normalizer, keys: set<Key>,
                          categories: seq<Code>, occupied: seq<bool>, spelling: Bytes)
    requires CategoriesSoFar(visited, index, normalize, keys, categories, occupied)
    requires spelling in index && spelling !in visited && spelling in normalize
    requires normalize[spelling] in keys || index[spelling] < 0 || index[spelling] >= |index| ||
             occupied[index[spelling]]
    ensures !CategoriesAccepted(index, normalize)
  {
    if normalize[spelling] in keys {
      OldKey(visited, spelling, index.Keys, normalize);
    } else if 0 <= index[spelling] < |index| {
      assert categories[index[spelling]].spelling in visited;
    }
  }

  /** Accepts exactly the permutations of 0..n-1 with distinct keys, and then the result does not depend on the order in
      which the map was visited. */
  method ParseCategories(index: CategoryIndex, normalize: Normalizer) returns (r: Result<seq<Code>, CategoryError>)
    ensures r.Ok? <==> CategoriesAccepted(index, normalize)
    ensures r.Ok? ==> r.value == CategoriesFor(index, normalize)
  {
    if |index| == 0 {
      return Err(NoCategories);
    }
    var categories := seq(|index|, _ => Code([], []));
    var occupied := seq(|index|, _ => false);
    var keys: set<Key> := {};
    var remaining := index.Keys;
    while remaining != {}
      invariant remaining <= index.Keys
      invariant CategoriesSoFar(index.Keys - remaining, index, normalize, keys, categories, occupied)
      decreases |remaining|
    {
      ghost var visited := index.Keys - remaining;
      var spelling :| spelling in remaining;
      var position := index[spelling];
      if spelling !in normalize {
        return Err(BadCategoryCode);
      }
      var key := normalize[spelling];
      if key in keys {
        CategoriesRefused(visited, index, normalize, keys, categories, occupied, spelling);
        return Err(DuplicateCategory);
      }
      if position < 0 || position >= |index| || occupied[position] {
        CategoriesRefused(visited, index, normalize, keys, categories, occupied, spelling);
        return Err(BadPosition);
      }
      CategoriesStep(visited, index, normalize, keys, categories, occupied, spelling);
      keys := keys + {key};
      occupied := occupied[position := true];
      categories := categories[position := Code(spelling, key)];
      remaining := remaining - {spelling};
      assert index.Keys - remaining == visited + {spelling};
    }
    assert index.Keys - remaining == index.Keys;
    AllFilled(index, normalize, categories, occupied);
    return Ok(categories);
  }

  // Dimensions.

  type DimensionMap = map<Bytes, CategoryIndex>

  ghost function EntryNamed(payload: DimensionMap, normalize: Normalizer, key: Key): Bytes {
    if exists s :: s in payload && KeyOf(normalize, s) == key then
      var s :| s in payload && KeyOf(normalize, s) == key;
      s
    else []
  }

  ghost function IdKeys(ids: seq<Bytes>, normalize: Normalizer): (keys: seq<Key>)
    ensures |keys| == |ids|
  {
    seq(|ids|, i requires 0 <= i < |ids| => KeyOf(normalize, ids[i]))
  }

  ghost function DimensionKeys(payload: DimensionMap, normalize: Normalizer): set<Key> {
    set s | s in payload :: KeyOf(normalize, s)
  }

  /** `id` and `dimension` name the same duplicate-free set of keys, and every category index is acceptable. */
  ghost predicate NamesAgree(ids: seq<Bytes>, payload: DimensionMap, normalize: Normalizer) {
    && 1 <= |ids| <= MAX_DIMENSIONS
    && (forall i :: 0 <= i < |ids| ==> ids[i] in normalize)
    && Distinct(IdKeys(ids, normalize))
    && DistinctCodes(payload.Keys, normalize)
    && Elements(IdKeys(ids, normalize)) == DimensionKeys(payload, normalize)
    && (forall s :: s in payload ==> CategoriesAccepted(payload[s], normalize))
  }

  /** The dimensions in `id` order; the retained spelling is the one in `dimension`. */
  ghost function DimensionsFor(ids: seq<Bytes>, payload: DimensionMap, normalize: Normalizer)
    : (dimensions: seq<RequestDimension>)
    ensures |dimensions| == |ids|
  {
    seq(|ids|, i requires 0 <= i < |ids| => DimensionFor(payload, normalize, KeyOf(normalize, ids[i])))
  }

  ghost function DimensionFor(payload: DimensionMap, normalize: Normalizer, key: Key): RequestDimension {
    var spelling := EntryNamed(payload, normalize, key);
    RequestDimension(Code(spelling, KeyOf(normalize, spelling)),
                     if spelling in payload then CategoriesFor(payload[spelling], normalize) else [])
  }

  ghost function AxesOfRequest(dimensions: seq<RequestDimension>): (axes: seq<Axis>)
    ensures |axes| == |dimensions|
  {
    seq(|dimensions|, i requires 0 <= i < |dimensions| => AxisOfRequest(dimensions[i]))
  }

  ghost function AxisOfRequest(dimension: RequestDimension): (axis: Axis)
    ensures |axis.cats| == |dimension.categories|
  {
    Axis(dimension.code.key,
         seq(|dimension.categories|, j requires 0 <= j < |dimension.categories| => dimension.categories[j].key))
  }

  ghost predicate StructureAccepted(ids: seq<Bytes>, payload: DimensionMap, normalize: Normalizer, limit: int) {
    && NamesAgree(ids, payload, normalize)
    && Fits(SizesOf(AxesOfRequest(DimensionsFor(ids, payload, normalize))), limit)
  }

  predicate CodedBy(code: Code, normalize: Normalizer) {
    code.spelling in normalize && normalize[code.spelling] == code.key
  }

  /** Codes keep the key that normalization gives their spelling. */
  predicate WellCoded(dimensions: seq<RequestDimension>, normalize: Normalizer) {
    forall i :: 0 <= i < |dimensions| ==>
      && CodedBy(dimensions[i].code, normalize)
      && forall j :: 0 <= j < |dimensions[i].categories| ==>
        CodedBy(dimensions[i].categories[j], normalize)
  }

  lemma EntryUnique(payload: DimensionMap, normalize: Normalizer, spelling: Bytes)
    requires DistinctCodes(payload.Keys, normalize) && spelling in payload
    ensures EntryNamed(payload, normalize, KeyOf(normalize, spelling)) == spelling
  {
  }

  /** An accepted structure is a well-formed cube whose codes carry their normalized keys. */
  lemma AcceptedIsWellFormed(ids: seq<Bytes>, payload: DimensionMap, normalize: Normalizer)
    requires NamesAgree(ids, payload, normalize)
    ensures WellFormed(AxesOfRequest(DimensionsFor(ids, payload, normalize)))
    ensures WellCoded(DimensionsFor(ids, payload, normalize), normalize)
    ensures KeysOf(AxesOfRequest(DimensionsFor(ids, payload, normalize))) == IdKeys(ids, normalize)
  {
    var dimensions := DimensionsFor(ids, payload, normalize);
    var keys := IdKeys(ids, normalize);
    forall i | 0 <= i < |ids|
      ensures dimensions[i].code.key == keys[i] && CodedBy(dimensions[i].code, normalize)
      ensures dimensions[i].code.spelling in payload
      ensures dimensions[i].categories == CategoriesFor(payload[dimensions[i].code.spelling], normalize)
    {
      assert keys[i] in Elements(keys);
      assert keys[i] in DimensionKeys(payload, normalize);
    }
    forall i | 0 <= i < |ids|
      ensures AxisOfRequest(dimensions[i]).cats != [] && Distinct(AxisOfRequest(dimensions[i]).cats)
      ensures forall j :: 0 <= j < |dimensions[i].categories| ==>
        CodedBy(dimensions[i].categories[j], normalize)
    {
      CategoriesWellFormed(payload[dimensions[i].code.spelling], normalize);
    }
    assert KeysOf(AxesOfRequest(dimensions)) == keys;
  }

  lemma CategoriesWellFormed(index: CategoryIndex, normalize: Normalizer)
    requires CategoriesAccepted(index, normalize)
    ensures CategoriesFor(index, normalize) != []
    ensures forall j :: 0 <= j < |index| ==>
      CodedBy(CategoriesFor(index, normalize)[j], normalize)
    ensures forall i, j :: 0 <= i < j < |index| ==>
      CategoriesFor(index, normalize)[i].key != CategoriesFor(index, normalize)[j].key
  {
    forall j | 0 <= j < |index|
      ensures CategoriesFor(index, normalize)[j].spelling in index
      ensures index[CategoriesFor(index, normalize)[j].spelling] == j
    {
      SlotsFilled(index, j);
    }
  }

  ghost predicate Indexed(visited: set<Bytes>, payload: DimensionMap, normalize: Normalizer,
                          byKey: map<Key, KeyedDimension>)
  {
    && visited <= payload.Keys && byKey.Keys == KeysIn(visited, normalize)
    && forall s :: s in visited ==>
         byKey[KeyOf(normalize, s)] == KeyedDimension(Code(s, KeyOf(normalize, s)), payload[s])
  }

  lemma IndexedStep(visited: set<Bytes>, payload: DimensionMap, normalize: Normalizer, byKey: map<Key, KeyedDimension>,
                    spelling: Bytes)
    requires Indexed(visited, payload, normalize, byKey) && DistinctCodes(visited, normalize)
    requires spelling in payload && spelling !in visited && KeyOf(normalize, spelling) !in byKey
    ensures Indexed(visited + {spelling}, payload, normalize,
                    var key := KeyOf(normalize, spelling);
                    byKey[key := KeyedDimension(Code(spelling, key), payload[spelling])])
  {
    KeysInStep(visited, spelling, normalize);
    forall s | s in visited ensures KeyOf(normalize, s) != KeyOf(normalize, spelling) {
      assert KeyOf(normalize, s) in KeysIn(visited, normalize);
    }
  }

  method IndexByKey(payload: DimensionMap, normalize: Normalizer)
    returns (r: Result<map<Key, KeyedDimension>, StructureError>)
    ensures r.Ok? <==> DistinctCodes(payload.Keys, normalize)
    ensures r.Ok? ==> Indexed(payload.Keys, payload, normalize, r.value)
    ensures r.Err? ==> !r.error.Size?
  {
    var byKey: map<Key, KeyedDimension> := map[];
    var remaining := payload.Keys;
    ghost var visited: set<Bytes> := {};
    while remaining != {}
      invariant remaining <= payload.Keys && visited == payload.Keys - remaining
      invariant DistinctCodes(visited, normalize) && Indexed(visited, payload, normalize, byKey)
    {
      var spelling :| spelling in remaining;
      if spelling !in normalize {
        return Err(BadDimensionCode);
      }
      var key := normalize[spelling];
      if key in byKey {
        OldKey(visited, spelling, payload.Keys, normalize);
        return Err(DuplicateDimension);
      }
      NewKey(visited, spelling, normalize);
      IndexedStep(visited, payload, normalize, byKey, spelling);
      byKey := byKey[key := KeyedDimension(Code(spelling, key), payload[spelling])];
      visited, remaining := visited + {spelling}, remaining - {spelling};
    }
    assert visited == payload.Keys;
    return Ok(byKey);
  }

  /** Which entry of `dimension` an `id` key selects, and what it has to satisfy. */
  ghost predicate IdAccepted(payload: DimensionMap, normalize: Normalizer, key: Key) {
    && key in DimensionKeys(payload, normalize)
    && EntryNamed(payload, normalize, key) in payload
    && CategoriesAccepted(payload[EntryNamed(payload, normalize, key)], normalize)
  }

  /** Every id has a key, different from the others, that selects an acceptable entry. */
  ghost predicate IdsAccepted(ids: seq<Bytes>, payload: DimensionMap, normalize: Normalizer) {
    && (forall i :: 0 <= i < |ids| ==> ids[i] in normalize && IdAccepted(payload, normalize, KeyOf(normalize, ids[i])))
    && Distinct(IdKeys(ids, normalize))
  }

  lemma EntryFound(payload: DimensionMap, normalize: Normalizer, byKey: map<Key, KeyedDimension>, key: Key)
    requires DistinctCodes(payload.Keys, normalize) && Indexed(payload.Keys, payload, normalize, byKey) && key in byKey
    ensures byKey[key]
            == KeyedDimension(Code(EntryNamed(payload, normalize, key), key),
                              payload[EntryNamed(payload, normalize, key)])
    ensures key in DimensionKeys(payload, normalize) && EntryNamed(payload, normalize, key) in payload
    ensures DimensionFor(payload, normalize, key)
            == RequestDimension(byKey[key].code, CategoriesFor(byKey[key].index, normalize))
  {
    var s :| s in payload && KeyOf(normalize, s) == key;
    EntryUnique(payload, normalize, s);
  }

  /** What the code checks instead of comparing two key sets: n different ids that all select entries, out of n entries,
      use up every entry (pigeonhole). */
  lemma NamesAgreeByCounting(ids: seq<Bytes>, payload: DimensionMap, normalize: Normalizer)
    requires 1 <= |ids| <= MAX_DIMENSIONS && DistinctCodes(payload.Keys, normalize)
    ensures NamesAgree(ids, payload, normalize)
            <==> |DimensionKeys(payload, normalize)| == |ids| && IdsAccepted(ids, payload, normalize)
  {
    if NamesAgree(ids, payload, normalize) {
      AgreeingNamesCount(ids, payload, normalize);
    }
    if |DimensionKeys(payload, normalize)| == |ids| && IdsAccepted(ids, payload, normalize) {
      CountingNamesAgree(ids, payload, normalize);
    }
  }

  lemma AgreeingNamesCount(ids: seq<Bytes>, payload: DimensionMap, normalize: Normalizer)
    requires NamesAgree(ids, payload, normalize)
    ensures |DimensionKeys(payload, normalize)| == |ids| && IdsAccepted(ids, payload, normalize)
  {
    var keys := IdKeys(ids, normalize);
    DistinctSize(keys);
    forall i | 0 <= i < |ids| ensures IdAccepted(payload, normalize, KeyOf(normalize, ids[i])) {
      assert keys[i] in Elements(keys);
    }
  }

  lemma CountingNamesAgree(ids: seq<Bytes>, payload: DimensionMap, normalize: Normalizer)
    requires 1 <= |ids| <= MAX_DIMENSIONS && DistinctCodes(payload.Keys, normalize)
    requires |DimensionKeys(payload, normalize)| == |ids| && IdsAccepted(ids, payload, normalize)
    ensures NamesAgree(ids, payload, normalize)
  {
    var keys := IdKeys(ids, normalize);
    Pigeonhole(keys, DimensionKeys(payload, normalize));
    forall s | s in payload ensures CategoriesAccepted(payload[s], normalize) {
      assert KeyOf(normalize, s) in Elements(keys);
      EntryUnique(payload, normalize, s);
    }
  }

  lemma IdsStep(ids: seq<Bytes>, payload: DimensionMap, normalize: Normalizer, position: nat)
    requires position < |ids| && IdsAccepted(ids[..position], payload, normalize)
    ensures IdsAccepted(ids[..position + 1], payload, normalize) <==>
            && ids[position] in normalize
            && KeyOf(normalize, ids[position]) !in IdKeys(ids[..position], normalize)
            && IdAccepted(payload, normalize, KeyOf(normalize, ids[position]))
    ensures IdKeys(ids[..position + 1], normalize)
            == IdKeys(ids[..position], normalize) + [KeyOf(normalize, ids[position])]
    ensures DimensionsFor(ids[..position + 1], payload, normalize)
            == DimensionsFor(ids[..position], payload, normalize)
              + [DimensionFor(payload, normalize, KeyOf(normalize, ids[position]))]
  {
    var before, after, key := ids[..position], ids[..position + 1], KeyOf(normalize, ids[position]);
    assert after == before + [ids[position]];
    assert IdKeys(after, normalize) == IdKeys(before, normalize) + [key];
    if IdsAccepted(after, payload, normalize) {
      assert after[position] == ids[position];
      assert IdKeys(after, normalize)[position] == key;
    }
    DistinctSnoc(IdKeys(before, normalize), key);
    assert forall i :: 0 <= i < position ==> after[i] == before[i];
  }

  lemma IdsPrefix(ids: seq<Bytes>, payload: DimensionMap, normalize: Normalizer, n: nat)
    requires n <= |ids| && IdsAccepted(ids, payload, normalize)
    ensures IdsAccepted(ids[..n], payload, normalize)
  {
    assert IdKeys(ids[..n], normalize) == IdKeys(ids, normalize)[..n];
    forall i | 0 <= i < n
      ensures ids[..n][i] in normalize && IdAccepted(payload, normalize, KeyOf(normalize, ids[..n][i]))
    {
      assert ids[..n][i] == ids[i];
    }
  }

  /** An id that does not extend the accepted prefix refuses the list. */
  lemma IdRefused(ids: seq<Bytes>, payload: DimensionMap, normalize: Normalizer, position: nat)
    requires position < |ids| && !IdsAccepted(ids[..position + 1], payload, normalize)
    ensures !IdsAccepted(ids, payload, normalize)
  {
    if IdsAccepted(ids, payload, normalize) {
      IdsPrefix(ids, payload, normalize, position + 1);
    }
  }

  lemma SizesStep(dimensions: seq<RequestDimension>, dimension: RequestDimension)
    ensures SizesOf(AxesOfRequest(dimensions + [dimension]))
            == SizesOf(AxesOfRequest(dimensions)) + [|dimension.categories|]
  {
  }

  /** The first n ids have been looked up. */
  ghost predicate LookedUp(ids: seq<Bytes>, payload: DimensionMap, normalize: Normalizer, n: nat, seen: set<Key>,
                           dimensions: seq<RequestDimension>, sizes: seq<int>)
  {
    && n <= |ids| && IdsAccepted(ids[..n], payload, normalize)
    && seen == Elements(IdKeys(ids[..n], normalize))
    && dimensions == DimensionsFor(ids[..n], payload, normalize)
    && sizes == SizesOf(AxesOfRequest(dimensions))
  }

  lemma LookUpStep(ids: seq<Bytes>, payload: DimensionMap, normalize: Normalizer, n: nat, seen: set<Key>,
                   dimensions: seq<RequestDimension>, sizes: seq<int>, dimension: RequestDimension)
    requires n < |ids| && LookedUp(ids, payload, normalize, n, seen, dimensions, sizes)
    requires ids[n] in normalize && normalize[ids[n]] !in seen && IdAccepted(payload, normalize, normalize[ids[n]])
    requires dimension == DimensionFor(payload, normalize, normalize[ids[n]])
    ensures LookedUp(ids, payload, normalize, n + 1, seen + {normalize[ids[n]]}, dimensions + [dimension],
                     sizes + [|dimension.categories|])
  {
    IdsStep(ids, payload, normalize, n);
    SizesStep(dimensions, dimension);
  }

  /** The loop over `id`. */
  method DimensionsById(ids: seq<Bytes>, ghost payload: DimensionMap, byKey: map<Key, KeyedDimension>,
                        normalize: Normalizer)
    returns (r: Result<(seq<RequestDimension>, seq<int>), StructureError>)
    requires DistinctCodes(payload.Keys, normalize) && Indexed(payload.Keys, payload, normalize, byKey)
    ensures r.Ok? <==> IdsAccepted(ids, payload, normalize)
    ensures r.Ok? ==>
      r.value.0 == DimensionsFor(ids, payload, normalize) && r.value.1 == SizesOf(AxesOfRequest(r.value.0))
    ensures r.Err? ==> !r.error.Size?
  {
    var dimensions: seq<RequestDimension> := [];
    var sizes: seq<int> := [];
    var seen: set<Key> := {};
    for position := 0 to |ids|
      invariant LookedUp(ids, payload, normalize, position, seen, dimensions, sizes)
    {
      IdsStep(ids, payload, normalize, position);
      if ids[position] !in normalize {
        IdRefused(ids, payload, normalize, position);
        return Err(BadIdCode);
      }
      var key := normalize[ids[position]];
      if key in seen {
        IdRefused(ids, payload, normalize, position);
        return Err(DuplicateId);
      }
      if key !in byKey {
        IdRefused(ids, payload, normalize, position);
        return Err(MissingDimension);
      }
      var entry := byKey[key];
      EntryFound(payload, normalize, byKey, key);
      var categories := ParseCategories(entry.index, normalize);
      if categories.Err? {
        IdRefused(ids, payload, normalize, position);
        return Err(Categories(categories.error));
      }
      LookUpStep(ids, payload, normalize, position, seen, dimensions, sizes,
                 RequestDimension(entry.code, categories.value));
      seen := seen + {key};
      dimensions := dimensions + [RequestDimension(entry.code, categories.value)];
      sizes := sizes + [|categories.value|];
    }
    assert ids[..|ids|] == ids;
    return Ok((dimensions, sizes));
  }

  /** Accepts exactly the structures whose two key lists are one duplicate-free set, whose category indexes are
      permutations and whose product is within the limit, for every order in which the maps are visited. */
  method ParseRequestDimensions(ids: seq<Bytes>, payload: DimensionMap, normalize: Normalizer, limit: int)
    returns (r: Result<(seq<RequestDimension>, int), StructureError>)
    ensures r.Ok? <==> StructureAccepted(ids, payload, normalize, limit)
    ensures r.Ok? ==> r.value.0 == DimensionsFor(ids, payload, normalize)
    ensures r.Ok? ==> r.value.1 == Count(AxesOfRequest(r.value.0)) && 1 <= r.value.1 <= limit && r.value.1 <= MAX_INT64
    ensures r.Err? && r.error.Size?
            <==> NamesAgree(ids, payload, normalize) && !StructureAccepted(ids, payload, normalize, limit)
  {
    if |ids| < 1 || |ids| > MAX_DIMENSIONS {
      return Err(DimensionCount);
    }
    var indexed := IndexByKey(payload, normalize);
    if indexed.Err? {
      return Err(indexed.error);
    }
    EntryCount(payload, normalize, indexed.value);
    NamesAgreeByCounting(ids, payload, normalize);
    if |indexed.value| != |ids| {
      return Err(DifferentDimensions);
    }
    var selected := DimensionsById(ids, payload, indexed.value, normalize);
    if selected.Err? {
      return Err(selected.error);
    }
    var (dimensions, sizes) := selected.value;
    var count := CheckedProduct(sizes, limit);
    if count.Err? {
      return Err(Size(count.error));
    }
    return Ok((dimensions, count.value));
  }

  lemma EntryCount(payload: DimensionMap, normalize: Normalizer, byKey: map<Key, KeyedDimension>)
    requires Indexed(payload.Keys, payload, normalize, byKey)
    ensures |byKey| == |DimensionKeys(payload, normalize)|
  {
    assert byKey.Keys == DimensionKeys(payload, normalize);
  }
}
