/** ParseReplacement (internal/domain/payload.go): merging the channels into cells and counting them. */
module Payload {
  import opened Basics
  import opened Model
  import opened Naming
  import opened Structure
  import opened Channels
  import opened Remap

  /** A decoded request body. The source stamp is opaque; an absent one is not the JSON literal null. */
  datatype Body = Body(
    replace: bool,
    sourceStamp: Option<Bytes>,
    id: seq<Bytes>,
    dimension: DimensionMap,
    value: Channel<Number>,
    text: Channel<Bytes>,
    status: Channel<Bytes>)

  datatype Replacement = Replacement(
    provider: Code,
    dataset: Code,
    replace: bool,
    sourceStamp: Bytes,
    cellCount: int,
    valuedCount: int,
    dimensions: seq<Dimension>,
    cells: seq<Cell>)

  datatype ReplacementError =
    | ProviderCode
    | DatasetCode
    | StampRequired
    | ValueRequired
    | BadStructure(structure: StructureError)
    | BadValue(value: ChannelError)
    | BadText(text: ChannelError)
    | BadStatus(status: ChannelError)
    | NumericAndText

  // The merge. Go's map yields an empty cell for a missing index.

  function At(cells: map<int, Content>, k: int): Content {
    if k in cells then cells[k] else NO_CONTENT
  }

  function Lookup<V>(values: map<int, V>, k: int): Option<V> {
    if k in values then Some(values[k]) else None
  }

  /** What the three channels say about one payload index. */
  function Drawn(numeric: map<int, Number>, text: map<int, Bytes>, status: map<int, Bytes>, k: int): Content {
    Content(Lookup(numeric, k), Lookup(text, k), Lookup(status, k))
  }

  /** A cell for every payload index that any channel mentions, holding what each channel says about it. */
  ghost predicate Merges(cells: map<int, Content>, numeric: map<int, Number>, text: map<int, Bytes>,
                         status: map<int, Bytes>)
  {
    && (forall k :: k in cells <==> Drawn(numeric, text, status, k) != NO_CONTENT)
    && (forall k :: k in cells ==> cells[k] == Drawn(numeric, text, status, k))
  }

  ghost function MergeOf(numeric: map<int, Number>, text: map<int, Bytes>, status: map<int, Bytes>): map<int, Content> {
    map k | k in numeric.Keys + text.Keys + status.Keys :: Drawn(numeric, text, status, k)
  }

  /** There is one such merge. */
  lemma MergeUnique(cells: map<int, Content>, numeric: map<int, Number>, text: map<int, Bytes>, status: map<int, Bytes>)
    requires Merges(cells, numeric, text, status)
    ensures cells == MergeOf(numeric, text, status)
  {
    forall k ensures k in cells <==> k in MergeOf(numeric, text, status) {
    }
  }

  lemma NumericStep(cells: map<int, Content>, numeric: map<int, Number>, k: int, v: Number)
    requires Merges(cells, numeric, map[], map[])
    ensures Merges(cells[k := At(cells, k).(numeric := Some(v))], numeric[k := v], map[], map[])
  {
  }

  lemma TextStep(cells: map<int, Content>, numeric: map<int, Number>, text: map<int, Bytes>, k: int, v: Bytes)
    requires Merges(cells, numeric, text, map[])
    ensures Merges(cells[k := At(cells, k).(text := Some(v))], numeric, text[k := v], map[])
    ensures At(cells, k).numeric.Some? <==> k in numeric
  {
  }

  lemma StatusStep(cells: map<int, Content>, numeric: map<int, Number>, text: map<int, Bytes>, status: map<int, Bytes>,
                   k: int, v: Bytes)
    requires Merges(cells, numeric, text, status)
    ensures Merges(cells[k := At(cells, k).(status := Some(v))], numeric, text, status[k := v])
  {
  }

  method AddNumeric(numeric: map<int, Number>) returns (cells: map<int, Content>)
    ensures Merges(cells, numeric, map[], map[])
  {
    cells := map[];
    var remaining := numeric.Keys;
    ghost var added: map<int, Number> := map[];
    while remaining != {}
      invariant PartOf(added, numeric, remaining) && Merges(cells, added, map[], map[])
      decreases |remaining|
    {
      ghost var some := Inhabited(remaining);
      var index :| index in remaining;
      NumericStep(cells, added, index, numeric[index]);
      PartStep(added, numeric, remaining, index);
      cells := cells[index := At(cells, index).(numeric := Some(numeric[index]))];
      added := added[index := numeric[index]];
      remaining := remaining - {index};
    }
    PartIsWhole(added, numeric);
  }

  /** Refuses exactly when some cell already has a number. */
  method AddText(requestCells: map<int, Content>, ghost numeric: map<int, Number>, text: map<int, Bytes>)
    returns (r: Result<map<int, Content>, ReplacementError>)
    requires Merges(requestCells, numeric, map[], map[])
    ensures r.Ok? <==> numeric.Keys !! text.Keys
    ensures r.Ok? ==> Merges(r.value, numeric, text, map[])
    ensures r.Err? ==> r.error == NumericAndText
  {
    var cells := requestCells;
    var remaining := text.Keys;
    ghost var added: map<int, Bytes> := map[];
    while remaining != {}
      invariant PartOf(added, text, remaining) && Merges(cells, numeric, added, map[])
      invariant numeric.Keys !! added.Keys
      decreases |remaining|
    {
      ghost var some := Inhabited(remaining);
      var index :| index in remaining;
      TextStep(cells, numeric, added, index, text[index]);
      if At(cells, index).numeric.Some? {
        assert index in numeric.Keys && index in text.Keys;
        return Err(NumericAndText);
      }
      PartStep(added, text, remaining, index);
      cells := cells[index := At(cells, index).(text := Some(text[index]))];
      added := added[index := text[index]];
      remaining := remaining - {index};
    }
    PartIsWhole(added, text);
    return Ok(cells);
  }

  method AddStatuses(requestCells: map<int, Content>, ghost numeric: map<int, Number>, ghost text: map<int, Bytes>,
                     status: map<int, Bytes>)
    returns (cells: map<int, Content>)
    requires Merges(requestCells, numeric, text, map[])
    ensures Merges(cells, numeric, text, status)
  {
    cells := requestCells;
    var remaining := status.Keys;
    ghost var added: map<int, Bytes> := map[];
    while remaining != {}
      invariant PartOf(added, status, remaining) && Merges(cells, numeric, text, added)
      decreases |remaining|
    {
      ghost var some := Inhabited(remaining);
      var index :| index in remaining;
      StatusStep(cells, numeric, text, added, index, status[index]);
      PartStep(added, status, remaining, index);
      cells := cells[index := At(cells, index).(status := Some(status[index]))];
      added := added[index := status[index]];
      remaining := remaining - {index};
    }
    PartIsWhole(added, status);
  }

  /** A scalar status makes a row of every logical cell. */
  method AddScalar(requestCells: map<int, Content>, ghost numeric: map<int, Number>, ghost text: map<int, Bytes>,
                   scalar: Bytes, cellCount: nat)
    returns (cells: map<int, Content>)
    requires Merges(requestCells, numeric, text, map[])
    ensures Merges(cells, numeric, text, map i | i in Below(cellCount) :: scalar)
  {
    cells := requestCells;
    ghost var added: map<int, Bytes> := map[];
    for index := 0 to cellCount
      invariant Merges(cells, numeric, text, added)
      invariant added == map i | i in Below(index) :: scalar
    {
      StatusStep(cells, numeric, text, added, index, scalar);
      cells := cells[index := At(cells, index).(status := Some(scalar))];
      added := added[index := scalar];
    }
  }

  // Counting.

  function ValuedCells(cells: seq<Cell>): nat {
    if cells == [] then 0 else ValuedCells(cells[..|cells| - 1]) + (if Valued(cells[|cells| - 1].content) then 1 else 0)
  }

  method CountValued(cells: seq<Cell>) returns (valued: nat)
    ensures valued == ValuedCells(cells)
  {
    valued := 0;
    for i := 0 to |cells|
      invariant valued == ValuedCells(cells[..i])
    {
      assert cells[..i + 1][..i] == cells[..i];
      if cells[i].content.numeric.Some? || cells[i].content.text.Some? {
        valued := valued + 1;
      }
    }
    assert cells[..|cells|] == cells;
  }

  // The whole parse.

  ghost function RequestOf(body: Body, normalize: Normalizer): seq<RequestDimension> {
    DimensionsFor(body.id, body.dimension, normalize)
  }

  ghost function CountOf(body: Body, normalize: Normalizer): int {
    Count(AxesOfRequest(RequestOf(body, normalize)))
  }

  ghost predicate ChannelsAccepted(body: Body, count: int) {
    && NumericAccepted(body.value, count)
    && TextAccepted(body.text, count, body.value.Dense?)
    && StatusAccepted(body.status, count)
    && Denoted(body.value, count).Keys !! Denoted(body.text, count).Keys
  }

  /** When a payload is accepted. */
  ghost predicate Accepted(provider: Bytes, dataset: Bytes, body: Body, normalize: Normalizer, maxCells: int) {
    && provider in normalize && dataset in normalize && body.sourceStamp.Some?
    && StructureAccepted(body.id, body.dimension, normalize, maxCells)
    && ChannelsAccepted(body, CountOf(body, normalize))
  }

  /** The payload's own cells, at payload indexes. */
  ghost function RequestCells(body: Body, count: nat): map<int, Content> {
    MergeOf(Denoted(body.value, count), Denoted(body.text, count), StatusDenoted(body.status, count))
  }

  /** What an accepted payload becomes. */
  ghost predicate ParsedAs(provider: Bytes, dataset: Bytes, body: Body, normalize: Normalizer, r: Replacement) {
    && provider in normalize && r.provider == Code(provider, normalize[provider])
    && dataset in normalize && r.dataset == Code(dataset, normalize[dataset])
    && r.replace == body.replace && Some(r.sourceStamp) == body.sourceStamp
    && r.cellCount == CountOf(body, normalize) >= 0
    && r.dimensions == StoredDimensions(RequestOf(body, normalize))
    && StoredCells(RequestOf(body, normalize), RequestCells(body, r.cellCount), r.cells)
    && r.valuedCount == ValuedCells(r.cells)
  }

  lemma RequestCellsInCube(body: Body, count: nat)
    requires ChannelsAccepted(body, count)
    ensures forall k :: k in RequestCells(body, count) ==> 0 <= k < count
  {
    DenotedInCube(body.value, count);
    DenotedInCube(body.text, count);
    DenotedInCube(body.status, count);
  }

  method MergeChannels(body: Body, cellCount: nat) returns (r: Result<map<int, Content>, ReplacementError>)
    requires cellCount <= MAX_INT64
    ensures r.Ok? <==> ChannelsAccepted(body, cellCount)
    ensures r.Ok? ==> r.value == RequestCells(body, cellCount)
  {
    var value := ParseNumericChannel(body.value, cellCount);
    if value.Err? {
      return Err(BadValue(value.error));
    }
    var (numeric, dense) := value.value;
    var text := ParseStringChannel(body.text, cellCount, dense, false);
    if text.Err? {
      return Err(BadText(text.error));
    }
    var status := ParseStatusChannel(body.status, cellCount);
    if status.Err? {
      return Err(BadStatus(status.error));
    }
    var (statuses, scalar) := status.value;
    var requestCells := AddNumeric(numeric);
    var withText := AddText(requestCells, numeric, text.value);
    if withText.Err? {
      return Err(withText.error);
    }
    requestCells := AddStatuses(withText.value, numeric, text.value, statuses);
    if scalar.Some? {
      requestCells := AddScalar(requestCells, numeric, text.value, scalar.value, cellCount);
    }
    MergeUnique(requestCells, numeric, text.value, StatusDenoted(body.status, cellCount));
    return Ok(requestCells);
  }

  /** The channels of a payload whose structure has been accepted, as stored cells. The remap cannot fail. */
  method ParseCells(body: Body, dimensions: seq<RequestDimension>, cellCount: nat)
    returns (r: Result<(seq<Dimension>, seq<Cell>), ReplacementError>)
    requires dimensions != [] && WellFormed(AxesOfRequest(dimensions))
    requires cellCount == Count(AxesOfRequest(dimensions)) <= MAX_INT64
    ensures r.Ok? <==> ChannelsAccepted(body, cellCount)
    ensures r.Ok? ==> r.value.0 == StoredDimensions(dimensions)
    ensures r.Ok? ==> StoredCells(dimensions, RequestCells(body, cellCount), r.value.1)
  {
    var merged := MergeChannels(body, cellCount);
    if merged.Err? {
      return Err(merged.error);
    }
    RequestCellsInCube(body, cellCount);
    var remapped := RemapReplacement(dimensions, merged.value, cellCount);
    if remapped.Err? {
      assert false;
    }
    return Ok(remapped.value);
  }

  method ParseBody(body: Body, normalize: Normalizer, maxCells: int)
    returns (r: Result<(seq<Dimension>, seq<Cell>, int), ReplacementError>)
    ensures r.Ok? <==>
      && StructureAccepted(body.id, body.dimension, normalize, maxCells)
      && ChannelsAccepted(body, CountOf(body, normalize))
    ensures r.Ok? ==>
      r.value.0 == StoredDimensions(RequestOf(body, normalize)) && r.value.2 == CountOf(body, normalize) >= 0
    ensures r.Ok? ==> StoredCells(RequestOf(body, normalize), RequestCells(body, r.value.2), r.value.1)
  {
    var structure := ParseRequestDimensions(body.id, body.dimension, normalize, maxCells);
    if structure.Err? {
      r := Err(BadStructure(structure.error));
    } else {
      AcceptedIsWellFormed(body.id, body.dimension, normalize);
      var stored := ParseCells(body, structure.value.0, structure.value.1);
      r := if stored.Ok? then Ok((stored.value.0, stored.value.1, structure.value.1)) else Err(stored.error);
    }
  }

  /** Accepts exactly what Accepted describes; the result is the stored form of the payload's cells. The remap cannot
      fail on an accepted payload. */
  method ParseReplacement(provider: Bytes, dataset: Bytes, body: Body, normalize: Normalizer, maxCells: int)
    returns (r: Result<Replacement, ReplacementError>)
    ensures r.Ok? <==> Accepted(provider, dataset, body, normalize, maxCells)
    ensures r.Ok? ==> ParsedAs(provider, dataset, body, normalize, r.value)
  {
    if provider !in normalize {
      r := Err(ProviderCode);
    } else if dataset !in normalize {
      r := Err(DatasetCode);
    } else if body.sourceStamp.None? {
      r := Err(StampRequired);
    } else if body.value.Absent? {
      r := Err(ValueRequired);
    } else {
      var parsed := ParseBody(body, normalize, maxCells);
      if parsed.Err? {
        r := Err(parsed.error);
      } else {
        var (dimensions, cells, cellCount) := parsed.value;
        var valued := CountValued(cells);
        r := Ok(Replacement(Code(provider, normalize[provider]), Code(dataset, normalize[dataset]), body.replace,
                            body.sourceStamp.value, cellCount, valued, dimensions, cells));
      }
    }
  }
}
