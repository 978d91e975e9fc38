/** Which payloads are accepted, and what they mean, without the parsers: exactly the bodies that spell a cube and three
    partial functions on it, where no cell has a number and a text. */
module Acceptance {
  import opened Basics
  import opened Index
  import opened Model
  import opened Decimal
  import opened Naming
  import opened Structure
  import opened Channels
  import opened Remap
  import opened Payload
  import opened Presentation
  import opened ExportImport

  // Channels.

  ghost predicate InCubeOf<V>(values: map<int, V>, count: int) {
    forall k :: k in values ==> 0 <= k < count
  }

  /** An array with one entry for every cell, null where there is no value. */
  ghost predicate ListSpells<V>(list: seq<Entry<V>>, values: map<int, V>, count: int) {
    && |list| == count && InCubeOf(values, count)
    && forall i :: 0 <= i < |list| ==> list[i] == if i in values then Value(values[i]) else Null
  }

  /** An object with one entry for every value, under the printed index. */
  ghost predicate TableSpells<V>(table: map<Bytes, Entry<V>>, values: map<int, V>, count: int) {
    && InCubeOf(values, count)
    && (forall k :: k in values ==> k >= 0 && Print(k) in table && table[Print(k)] == Value(values[k]))
    && (forall key :: key in table ==> PrintedIn(key, values))
  }

  ghost predicate PrintedIn<V>(key: Bytes, values: map<int, V>) {
    exists k :: k in values && k >= 0 && key == Print(k)
  }

  ghost predicate Spells<V>(channel: Channel<V>, values: map<int, V>, count: int) {
    match channel
    case Dense(list) => ListSpells(list, values, count)
    case Sparse(table) => TableSpells(table, values, count)
    case _ => false
  }

  /** An optional channel may be absent; an explicit null is an empty object, or an array for no cells; it has the
      representation of the numbers. */
  ghost predicate TextSpells(channel: Channel<Bytes>, values: map<int, Bytes>, count: int, dense: bool) {
    if channel.Absent? then values == map[]
    else if channel.ExplicitNull? then values == map[] && (dense ==> count == 0)
    else Spells(channel, values, count) && (channel.Dense? <==> dense)
  }

  /** One string stands for every cell. */
  ghost predicate StatusSpells(channel: Channel<Bytes>, values: map<int, Bytes>, count: int) {
    if channel.Absent? then values == map[]
    else if channel.Scalar? then
      forall k :: (k in values <==> 0 <= k < count) && (k in values ==> values[k] == channel.text)
    else Spells(channel, values, count)
  }

  lemma ListMeans<V>(list: seq<Entry<V>>, values: map<int, V>, count: int)
    ensures ListSpells(list, values, count) <==> DenseAccepted(list, count) && DenseValues(list) == values
  {
    if ListSpells(list, values, count) {
      assert forall i :: 0 <= i < |list| ==> (list[i].Value? <==> i in values);
    }
  }

  lemma TableValues<V>(table: map<Bytes, Entry<V>>, values: map<int, V>, count: int)
    requires TableSpells(table, values, count)
    ensures SparseAccepted(table, count) && SparseValues(table, count) == values
  {
    forall key | key in table ensures table[key].Value? && IndexKey(key, count) {
      assert PrintedIn(key, values);
    }
    forall i | 0 <= i < count && Print(i) in table ensures i in values {
      var k :| k in values && k >= 0 && Print(i) == Print(k);
      PrintInjective(i, k);
    }
  }

  lemma TableMeans<V>(table: map<Bytes, Entry<V>>, values: map<int, V>, count: int)
    ensures TableSpells(table, values, count) <==> SparseAccepted(table, count) && SparseValues(table, count) == values
  {
    if TableSpells(table, values, count) {
      TableValues(table, values, count);
    }
    if SparseAccepted(table, count) && SparseValues(table, count) == values {
      forall key | key in table ensures PrintedIn(key, values) {
        var i: nat :| i < count && key == Print(i);
        assert i in values;
      }
    }
  }

  lemma ChannelMeans<V>(channel: Channel<V>, values: map<int, V>, count: int)
    ensures Spells(channel, values, count) <==>
      && (channel.Dense? || channel.Sparse?) && Denoted(channel, count) == values
      && (channel.Dense? ==> DenseAccepted(channel.list, count))
      && (channel.Sparse? ==> SparseAccepted(channel.table, count))
  {
    match channel
    case Dense(list) => ListMeans(list, values, count);
    case Sparse(table) => TableMeans(table, values, count);
    case _ =>
  }

  /** The numbers are required, in either representation. */
  lemma NumericMeans(channel: Channel<Number>, values: map<int, Number>, count: int)
    ensures Spells(channel, values, count) <==> NumericAccepted(channel, count) && Denoted(channel, count) == values
  {
    ChannelMeans(channel, values, count);
  }

  lemma TextMeans(channel: Channel<Bytes>, values: map<int, Bytes>, count: int, dense: bool)
    ensures TextSpells(channel, values, count, dense)
            <==> TextAccepted(channel, count, dense) && Denoted(channel, count) == values
  {
    ChannelMeans(channel, values, count);
  }

  lemma StatusMeans(channel: Channel<Bytes>, values: map<int, Bytes>, count: nat)
    ensures StatusSpells(channel, values, count)
            <==> StatusAccepted(channel, count) && StatusDenoted(channel, count) == values
  {
    ChannelMeans(channel, values, count);
  }

  // Structure.

  /** A category index spells the categories of a dimension: codes with different keys, each at its position. */
  ghost predicate IndexSpells(index: CategoryIndex, categories: seq<Category>, normalize: Normalizer) {
    && categories != []
    && (forall j :: 0 <= j < |categories| ==>
          && categories[j].code.spelling in normalize
          && normalize[categories[j].code.spelling] == categories[j].code.key
          && categories[j].code.spelling in index && index[categories[j].code.spelling] == j == categories[j].position)
    && (forall j, k :: 0 <= j < k < |categories| ==> categories[j].code.key != categories[k].code.key)
    && (forall s :: s in index ==> exists j :: 0 <= j < |categories| && categories[j].code.spelling == s)
  }

  /** `id` and `dimension` spell these dimensions, at most 64 with different keys, in the order of `id`. The two may
      spell one dimension differently; its code is spelled as in `dimension`. */
  ghost predicate StructureSpells(id: seq<Bytes>, dimension: DimensionMap, dimensions: seq<Dimension>,
                                  normalize: Normalizer)
  {
    && 1 <= |dimensions| == |id| <= 64
    && (forall i :: 0 <= i < |dimensions| ==> DimensionSpelled(id[i], dimension, dimensions[i], i, normalize))
    && (forall i, j :: 0 <= i < j < |dimensions| ==> dimensions[i].code.key != dimensions[j].code.key)
    && (forall s :: s in dimension ==> exists i :: 0 <= i < |dimensions| && dimensions[i].code.spelling == s)
  }

  ghost predicate DimensionSpelled(id: Bytes, dimension: DimensionMap, d: Dimension, position: int,
                                   normalize: Normalizer)
  {
    && id in normalize && normalize[id] == d.code.key && d.position == position
    && d.code.spelling in normalize && normalize[d.code.spelling] == d.code.key
    && d.code.spelling in dimension && IndexSpells(dimension[d.code.spelling], d.categories, normalize)
  }

  lemma IndexMeans(index: CategoryIndex, dimension: Dimension, normalize: Normalizer)
    requires IndexSpells(index, dimension.categories, normalize) && CodedBy(dimension.code, normalize)
    ensures CategoriesAccepted(index, normalize) && CategoriesFor(index, normalize) == AsRequest(dimension).categories
    ensures AxisOf(dimension).cats != [] && Distinct(AxisOf(dimension).cats)
  {
    forall j, k | 0 <= j < k < |AxisOf(dimension).cats| ensures AxisOf(dimension).cats[j] != AxisOf(dimension).cats[k] {
      assert dimension.categories[j].code.key != dimension.categories[k].code.key;
    }
    assert IndexOf(index, dimension);
    IndexReparsed(index, dimension, normalize);
  }

  lemma SpelledAt(id: seq<Bytes>, dimension: DimensionMap, dimensions: seq<Dimension>, normalize: Normalizer, i: nat)
    requires StructureSpells(id, dimension, dimensions, normalize) && i < |dimensions|
    ensures id[i] in normalize && IdKeys(id, normalize)[i] == dimensions[i].code.key
    ensures dimensions[i].code.spelling in dimension && CodedBy(dimensions[i].code, normalize)
  {
    assert DimensionSpelled(id[i], dimension, dimensions[i], i, normalize);
  }

  /** Which dimension a key of `dimension` is. */
  lemma SpelledBy(id: seq<Bytes>, dimension: DimensionMap, dimensions: seq<Dimension>, normalize: Normalizer, s: Bytes)
    returns (i: nat)
    requires StructureSpells(id, dimension, dimensions, normalize) && s in dimension
    ensures i < |dimensions| && dimensions[i].code.spelling == s
    ensures s in normalize && KeyOf(normalize, s) == dimensions[i].code.key == IdKeys(id, normalize)[i]
  {
    i :| 0 <= i < |dimensions| && dimensions[i].code.spelling == s;
    SpelledAt(id, dimension, dimensions, normalize, i);
  }

  lemma SpelledIds(id: seq<Bytes>, dimension: DimensionMap, dimensions: seq<Dimension>, normalize: Normalizer)
    requires StructureSpells(id, dimension, dimensions, normalize)
    ensures (forall i :: 0 <= i < |id| ==> id[i] in normalize) && Distinct(IdKeys(id, normalize))
  {
    forall i | 0 <= i < |id| ensures id[i] in normalize {
      SpelledAt(id, dimension, dimensions, normalize, i);
    }
    forall i, j | 0 <= i < j < |id| ensures IdKeys(id, normalize)[i] != IdKeys(id, normalize)[j] {
      SpelledAt(id, dimension, dimensions, normalize, i);
      SpelledAt(id, dimension, dimensions, normalize, j);
    }
  }

  lemma SpelledCodes(id: seq<Bytes>, dimension: DimensionMap, dimensions: seq<Dimension>, normalize: Normalizer)
    requires StructureSpells(id, dimension, dimensions, normalize)
    ensures DistinctCodes(dimension.Keys, normalize)
  {
    forall s | s in dimension ensures s in normalize {
      var i := SpelledBy(id, dimension, dimensions, normalize, s);
    }
    forall s, t | s in dimension && t in dimension && KeyOf(normalize, s) == KeyOf(normalize, t) ensures s == t {
      var i := SpelledBy(id, dimension, dimensions, normalize, s);
      var j := SpelledBy(id, dimension, dimensions, normalize, t);
    }
  }

  lemma SpelledKeys(id: seq<Bytes>, dimension: DimensionMap, dimensions: seq<Dimension>, normalize: Normalizer)
    requires StructureSpells(id, dimension, dimensions, normalize)
    ensures Elements(IdKeys(id, normalize)) == DimensionKeys(dimension, normalize)
  {
    var keys := IdKeys(id, normalize);
    forall k | k in Elements(keys) ensures k in DimensionKeys(dimension, normalize) {
      var i :| 0 <= i < |keys| && keys[i] == k;
      SpelledAt(id, dimension, dimensions, normalize, i);
    }
    forall k | k in DimensionKeys(dimension, normalize) ensures k in Elements(keys) {
      var s :| s in dimension && KeyOf(normalize, s) == k;
      var i := SpelledBy(id, dimension, dimensions, normalize, s);
    }
  }

  lemma SpelledEntry(id: seq<Bytes>, dimension: DimensionMap, dimensions: seq<Dimension>, normalize: Normalizer, i: nat)
    requires StructureSpells(id, dimension, dimensions, normalize) && i < |dimensions|
    requires DistinctCodes(dimension.Keys, normalize)
    ensures dimensions[i].code.spelling in dimension
    ensures CategoriesAccepted(dimension[dimensions[i].code.spelling], normalize)
    ensures DimensionFor(dimension, normalize, KeyOf(normalize, id[i])) == AsRequest(dimensions[i])
  {
    assert DimensionSpelled(id[i], dimension, dimensions[i], i, normalize);
    IndexMeans(dimension[dimensions[i].code.spelling], dimensions[i], normalize);
    EntryUnique(dimension, normalize, dimensions[i].code.spelling);
  }

  /** What a spelled structure parses to. */
  lemma SpelledParses(id: seq<Bytes>, dimension: DimensionMap, dimensions: seq<Dimension>, normalize: Normalizer)
    requires StructureSpells(id, dimension, dimensions, normalize)
    ensures NamesAgree(id, dimension, normalize) && DimensionsFor(id, dimension, normalize) == AsRequests(dimensions)
  {
    SpelledIds(id, dimension, dimensions, normalize);
    SpelledCodes(id, dimension, dimensions, normalize);
    SpelledKeys(id, dimension, dimensions, normalize);
    forall i | 0 <= i < |dimensions|
      ensures DimensionFor(dimension, normalize, KeyOf(normalize, id[i])) == AsRequest(dimensions[i])
    {
      SpelledEntry(id, dimension, dimensions, normalize, i);
    }
    forall s | s in dimension ensures CategoriesAccepted(dimension[s], normalize) {
      var i := SpelledBy(id, dimension, dimensions, normalize, s);
      SpelledEntry(id, dimension, dimensions, normalize, i);
    }
  }

  function Placed(codes: seq<Code>): (categories: seq<Category>)
    ensures |categories| == |codes|
  {
    seq(|codes|, j requires 0 <= j < |codes| => Category(codes[j], j))
  }

  lemma AcceptedIndexSpells(index: CategoryIndex, normalize: Normalizer)
    requires CategoriesAccepted(index, normalize)
    ensures IndexSpells(index, Placed(CategoriesFor(index, normalize)), normalize)
  {
    var codes := CategoriesFor(index, normalize);
    var categories := Placed(codes);
    CategoriesWellFormed(index, normalize);
    forall j | 0 <= j < |categories|
      ensures categories[j].code == codes[j] && CodedBy(codes[j], normalize)
      ensures codes[j].spelling in index && index[codes[j].spelling] == j
    {
      SlotsFilled(index, j);
    }
    forall s | s in index ensures exists j :: 0 <= j < |categories| && categories[j].code.spelling == s {
      SlotsFilled(index, index[s]);
      assert categories[index[s]].code.spelling == s;
    }
  }

  lemma AcceptedEntry(id: seq<Bytes>, dimension: DimensionMap, normalize: Normalizer, i: nat)
    requires NamesAgree(id, dimension, normalize) && i < |id|
    ensures var d := DimensionsFor(id, dimension, normalize)[i];
      && d.code.spelling in dimension && d.code.key == normalize[id[i]] && CodedBy(d.code, normalize)
      && d.categories == CategoriesFor(dimension[d.code.spelling], normalize)
  {
    var keys := IdKeys(id, normalize);
    assert keys[i] in Elements(keys) && keys[i] in DimensionKeys(dimension, normalize);
  }

  function AsStored(dimensions: seq<RequestDimension>): (stored: seq<Dimension>)
    ensures |stored| == |dimensions|
  {
    seq(|dimensions|, i requires 0 <= i < |dimensions| =>
        Dimension(dimensions[i].code, i, Placed(dimensions[i].categories)))
  }

  lemma AgreedIsSpelled(id: seq<Bytes>, dimension: DimensionMap, normalize: Normalizer)
    requires NamesAgree(id, dimension, normalize)
    ensures StructureSpells(id, dimension, AsStored(DimensionsFor(id, dimension, normalize)), normalize)
  {
    var parsed, keys := DimensionsFor(id, dimension, normalize), IdKeys(id, normalize);
    var dimensions := AsStored(parsed);
    forall i | 0 <= i < |dimensions| ensures DimensionSpelled(id[i], dimension, dimensions[i], i, normalize) {
      AcceptedEntry(id, dimension, normalize, i);
      AcceptedIndexSpells(dimension[dimensions[i].code.spelling], normalize);
    }
    forall i, j | 0 <= i < j < |dimensions| ensures dimensions[i].code.key != dimensions[j].code.key {
      assert keys[i] != keys[j];
      AcceptedEntry(id, dimension, normalize, i);
      AcceptedEntry(id, dimension, normalize, j);
    }
    forall s | s in dimension ensures exists i :: 0 <= i < |dimensions| && dimensions[i].code.spelling == s {
      assert KeyOf(normalize, s) in DimensionKeys(dimension, normalize) && KeyOf(normalize, s) in Elements(keys);
      var i :| 0 <= i < |keys| && keys[i] == KeyOf(normalize, s);
      AcceptedEntry(id, dimension, normalize, i);
      assert dimensions[i].code.spelling == s;
    }
  }

  /** Structure parsing accepts exactly the spellings of cubes. */
  lemma StructureIff(id: seq<Bytes>, dimension: DimensionMap, normalize: Normalizer)
    ensures NamesAgree(id, dimension, normalize)
            <==> exists dimensions :: StructureSpells(id, dimension, dimensions, normalize)
  {
    if NamesAgree(id, dimension, normalize) {
      AgreedIsSpelled(id, dimension, normalize);
    }
    forall dimensions | StructureSpells(id, dimension, dimensions, normalize)
      ensures NamesAgree(id, dimension, normalize)
    {
      SpelledParses(id, dimension, dimensions, normalize);
    }
  }

  // The whole body.

  function CellCount(dimensions: seq<Dimension>): int {
    Product(seq(|dimensions|, i requires 0 <= i < |dimensions| => |dimensions[i].categories|))
  }

  /** The body spells this cube and, on it, these numbers, texts and statuses. */
  ghost predicate BodySpells(body: Body, dimensions: seq<Dimension>, numeric: map<int, Number>, text: map<int, Bytes>,
                             status: map<int, Bytes>, normalize: Normalizer)
  {
    var count := CellCount(dimensions);
    && StructureSpells(body.id, body.dimension, dimensions, normalize)
    && Spells(body.value, numeric, count) && TextSpells(body.text, text, count, body.value.Dense?)
    && StatusSpells(body.status, status, count)
    && forall k :: !(k in numeric && k in text)
  }

  lemma RequestSizes(dimensions: seq<Dimension>)
    ensures SizesOf(AxesOfRequest(AsRequests(dimensions)))
            == seq(|dimensions|, i requires 0 <= i < |dimensions| => |dimensions[i].categories|)
  {
    AsRequestsAxes(dimensions);
  }

  lemma SpelledCount(id: seq<Bytes>, dimension: DimensionMap, dimensions: seq<Dimension>, normalize: Normalizer)
    requires StructureSpells(id, dimension, dimensions, normalize)
    ensures SizesOf(AxesOfRequest(DimensionsFor(id, dimension, normalize)))
            == seq(|dimensions|, i requires 0 <= i < |dimensions| => |dimensions[i].categories|)
    ensures Positive(SizesOf(AxesOfRequest(DimensionsFor(id, dimension, normalize)))) && CellCount(dimensions) >= 1
  {
    SpelledParses(id, dimension, dimensions, normalize);
    AcceptedIsWellFormed(id, dimension, normalize);
    SizesPositive(AxesOfRequest(DimensionsFor(id, dimension, normalize)));
    RequestSizes(dimensions);
  }

  lemma SpelledAccepted(body: Body, dimensions: seq<Dimension>, numeric: map<int, Number>, text: map<int, Bytes>,
                        status: map<int, Bytes>, normalize: Normalizer, maxCells: int)
    requires BodySpells(body, dimensions, numeric, text, status, normalize)
    ensures CountOf(body, normalize) == CellCount(dimensions) >= 1 && ChannelsAccepted(body, CellCount(dimensions))
    ensures StructureAccepted(body.id, body.dimension, normalize, maxCells)
            <==> CellCount(dimensions) <= maxCells && CellCount(dimensions) <= MAX_INT64
  {
    var count := CellCount(dimensions);
    SpelledParses(body.id, body.dimension, dimensions, normalize);
    SpelledCount(body.id, body.dimension, dimensions, normalize);
    NumericMeans(body.value, numeric, count);
    TextMeans(body.text, text, count, body.value.Dense?);
    StatusMeans(body.status, status, count);
  }

  /** What the parser takes it to say, cell by cell. */
  lemma SpelledMeans(body: Body, dimensions: seq<Dimension>, numeric: map<int, Number>, text: map<int, Bytes>,
                     status: map<int, Bytes>, normalize: Normalizer)
    requires BodySpells(body, dimensions, numeric, text, status, normalize)
    ensures RequestOf(body, normalize) == AsRequests(dimensions)
    ensures CountOf(body, normalize) == CellCount(dimensions) >= 1
    ensures var cells := RequestCells(body, CellCount(dimensions));
      && (forall k :: k in cells <==> k in numeric || k in text || k in status)
      && (forall k :: k in cells ==> cells[k].numeric == if k in numeric then Some(numeric[k]) else None)
      && (forall k :: k in cells ==> cells[k].text == if k in text then Some(text[k]) else None)
      && (forall k :: k in cells ==> cells[k].status == if k in status then Some(status[k]) else None)
  {
    var count := CellCount(dimensions);
    SpelledParses(body.id, body.dimension, dimensions, normalize);
    SpelledAccepted(body, dimensions, numeric, text, status, normalize, count);
    NumericMeans(body.value, numeric, count);
    TextMeans(body.text, text, count, body.value.Dense?);
    StatusMeans(body.status, status, count);
  }

  /** The dimensions of a body, and the three partial functions on its cells, when it has them. */
  ghost predicate Spellable(body: Body, normalize: Normalizer, maxCells: int) {
    exists dimensions, numeric, text, status ::
      && BodySpells(body, dimensions, numeric, text, status, normalize)
      && CellCount(dimensions) <= maxCells && CellCount(dimensions) <= MAX_INT64
  }

  lemma AcceptedSpells(body: Body, normalize: Normalizer, maxCells: int)
    requires StructureAccepted(body.id, body.dimension, normalize, maxCells)
    requires ChannelsAccepted(body, CountOf(body, normalize))
    ensures Spellable(body, normalize, maxCells)
  {
    var dimensions := AsStored(RequestOf(body, normalize));
    AgreedIsSpelled(body.id, body.dimension, normalize);
    SpelledCount(body.id, body.dimension, dimensions, normalize);
    var count := CellCount(dimensions);
    var numeric, text := Denoted(body.value, count), Denoted(body.text, count);
    var status := StatusDenoted(body.status, count);
    NumericMeans(body.value, numeric, count);
    TextMeans(body.text, text, count, body.value.Dense?);
    StatusMeans(body.status, status, count);
    assert BodySpells(body, dimensions, numeric, text, status, normalize);
  }

  /** A payload is accepted exactly when its codes normalize, it has a stamp, and it spells a cube within the limit with
      numbers, texts and statuses, no cell having a number and a text. */
  lemma AcceptedIffSpellable(provider: Bytes, dataset: Bytes, body: Body, normalize: Normalizer, maxCells: int)
    ensures Accepted(provider, dataset, body, normalize, maxCells) <==>
      && provider in normalize && dataset in normalize && body.sourceStamp.Some?
      && Spellable(body, normalize, maxCells)
  {
    if Accepted(provider, dataset, body, normalize, maxCells) {
      AcceptedSpells(body, normalize, maxCells);
    }
    if Spellable(body, normalize, maxCells) {
      var dimensions, numeric, text, status :|
        && BodySpells(body, dimensions, numeric, text, status, normalize)
        && CellCount(dimensions) <= maxCells && CellCount(dimensions) <= MAX_INT64;
      SpelledAccepted(body, dimensions, numeric, text, status, normalize, maxCells);
    }
  }
}
