/** Observation channels: parseNumericChannel, parseStringChannel and parseStatusChannel
    (internal/domain/payload.go). */
module Channels {
  import opened Basics
  import opened Model
  import opened Decimal

  /** One JSON entry as its channel reads it: a value of the channel's type, null, or anything else. */
  datatype Entry<V> = Null | Value(v: V) | Malformed

  /** The raw channel: absent, an explicit null, an array, an object, a string, or any other JSON value. */
  datatype Channel<V> =
    | Absent
    | ExplicitNull
    | Dense(list: seq<Entry<V>>)
    | Sparse(table: map<Bytes, Entry<V>>)
    | Scalar(text: Bytes)
    | Other

  datatype ChannelError = Required | WrongShape | WrongLength | NullEntry | MalformedEntry | BadKey(key: KeyError)

  // What a channel denotes: a partial function from payload indexes to values.

  predicate DenseAccepted<V>(list: seq<Entry<V>>, count: int) {
    |list| == count && forall i :: 0 <= i < |list| ==> !list[i].Malformed?
  }

  function DenseValues<V>(list: seq<Entry<V>>): map<int, V> {
    map i | 0 <= i < |list| && list[i].Value? :: list[i].v
  }

  ghost predicate SparseAccepted<V>(table: map<Bytes, Entry<V>>, count: int) {
    forall key :: key in table ==> table[key].Value? && IndexKey(key, count)
  }

  /** A key that addresses a cell: the canonical printing of an index inside the cube. */
  ghost predicate IndexKey(key: Bytes, count: int) {
    exists i: nat :: i < count && key == Print(i)
  }

  function SparseValues<V>(table: map<Bytes, Entry<V>>, count: int): map<int, V> {
    map i | 0 <= i < count && Print(i) in table && table[Print(i)].Value? :: table[Print(i)].v
  }

  method ParseDense<V>(list: seq<Entry<V>>, count: int) returns (r: Result<map<int, V>, ChannelError>)
    ensures r.Ok? <==> DenseAccepted(list, count)
    ensures r.Ok? ==> r.value == DenseValues(list)
  {
    if |list| != count {
      return Err(WrongLength);
    }
    var values: map<int, V> := map[];
    for i := 0 to |list|
      invariant forall k :: 0 <= k < i ==> !list[k].Malformed?
      invariant values == DenseValues(list[..i])
    {
      match list[i]
      case Null =>
      case Malformed =>
        return Err(MalformedEntry);
      case Value(v) =>
        values := values[i := v];
    }
    assert list[..|list|] == list;
    return Ok(values);
  }

  /** What the loop over a sparse object has stored once `visited` has been ranged over. */
  ghost predicate SparseSoFar<V>(visited: set<Bytes>, table: map<Bytes, Entry<V>>, count: int, values: map<int, V>) {
    && (forall key :: key in visited ==> key in table && table[key].Value? && IndexKey(key, count))
    && (forall i :: i in values <==> 0 <= i < count && Print(i) in visited)
    && (forall i :: i in values ==> values[i] == table[Print(i)].v)
  }

  lemma SparseStep<V>(visited: set<Bytes>, table: map<Bytes, Entry<V>>, count: int, values: map<int, V>, key: Bytes,
                      i: nat)
    requires SparseSoFar(visited, table, count, values)
    requires key in table && table[key].Value? && i < count && key == Print(i)
    ensures SparseSoFar(visited + {key}, table, count, values[i := table[key].v])
  {
    forall j: nat | Print(j) == key ensures j == i {
      PrintInjective(i, j);
    }
  }

  /** Accepts exactly the objects whose keys are printed indexes of the cube and whose entries are values; an explicit
      null is refused. */
  method ParseSparse<V>(table: map<Bytes, Entry<V>>, count: int) returns (r: Result<map<int, V>, ChannelError>)
    requires count <= MAX_INT64
    ensures r.Ok? <==> SparseAccepted(table, count)
    ensures r.Ok? ==> r.value == SparseValues(table, count)
  {
    var values: map<int, V> := map[];
    var remaining := table.Keys;
    while remaining != {}
      invariant remaining <= table.Keys
      invariant SparseSoFar(table.Keys - remaining, table, count, values)
      decreases |remaining|
    {
      ghost var visited := table.Keys - remaining;
      var key :| key in remaining;
      var index := ParseSparseIndex(key, count);
      if index.Err? {
        return Err(BadKey(index.error));
      }
      match table[key]
      case Null =>
        return Err(NullEntry);
      case Malformed =>
        return Err(MalformedEntry);
      case Value(v) =>
        SparseStep(visited, table, count, values, key, index.value);
        values := values[index.value := v];
        remaining := remaining - {key};
        assert table.Keys - remaining == visited + {key};
    }
    assert table.Keys - remaining == table.Keys;
    return Ok(values);
  }

  // The three channels.

  ghost predicate NumericAccepted(channel: Channel<Number>, count: int) {
    match channel
    case Dense(list) => DenseAccepted(list, count)
    case Sparse(table) => SparseAccepted(table, count)
    case _ => false
  }

  ghost predicate TextAccepted(channel: Channel<Bytes>, count: int, dense: bool) {
    match channel
    case Absent => true
    case Dense(list) => dense && DenseAccepted(list, count)
    case Sparse(table) => !dense && SparseAccepted(table, count)
    case ExplicitNull => !dense || count == 0
    case _ => false
  }

  ghost predicate StatusAccepted(channel: Channel<Bytes>, count: int) {
    match channel
    case Absent => true
    case Dense(list) => DenseAccepted(list, count)
    case Sparse(table) => SparseAccepted(table, count)
    case Scalar(_) => true
    case _ => false
  }

  /** The values a channel carries, whichever representation it uses. A scalar gives its text to every cell. */
  function Denoted<V>(channel: Channel<V>, count: int): map<int, V> {
    match channel
    case Dense(list) => DenseValues(list)
    case Sparse(table) => SparseValues(table, count)
    case _ => map[]
  }

  ghost function StatusDenoted(channel: Channel<Bytes>, count: nat): map<int, Bytes> {
    match channel
    case Scalar(text) => map i | i in Below(count) :: text
    case _ => Denoted(channel, count)
  }

  /** The values and whether the representation is dense, which the text channel has to share. */
  method ParseNumericChannel(channel: Channel<Number>, count: int)
    returns (r: Result<(map<int, Number>, bool), ChannelError>)
    requires count <= MAX_INT64
    ensures r.Ok? <==> NumericAccepted(channel, count)
    ensures r.Ok? ==> r.value == (Denoted(channel, count), channel.Dense?)
  {
    match channel
    case Absent =>
      return Err(Required);
    case Dense(list) =>
      var values := ParseDense(list, count);
      return if values.Ok? then Ok((values.value, true)) else Err(values.error);
    case Sparse(table) =>
      var values := ParseSparse(table, count);
      return if values.Ok? then Ok((values.value, false)) else Err(values.error);
    case _ =>
      return Err(WrongShape);
  }

  method ParseStringChannel(channel: Channel<Bytes>, count: int, dense: bool, required: bool)
    returns (r: Result<map<int, Bytes>, ChannelError>)
    requires count <= MAX_INT64
    ensures r.Ok? <==> TextAccepted(channel, count, dense) && (required ==> !channel.Absent?)
    ensures r.Ok? ==> r.value == Denoted(channel, count)
  {
    match channel
    case Absent =>
      return if required then Err(Required) else Ok(map[]);
    case ExplicitNull =>
      // encoding/json leaves a nil slice or map: an empty array of the wrong length, or an empty object
      return if dense && count != 0 then Err(WrongLength) else Ok(map[]);
    case Dense(list) =>
      if !dense {
        return Err(WrongShape);
      }
      r := ParseDense(list, count);
    case Sparse(table) =>
      if dense {
        return Err(WrongShape);
      }
      r := ParseSparse(table, count);
    case _ =>
      return Err(WrongShape);
  }

  method ParseStatusChannel(channel: Channel<Bytes>, count: int)
    returns (r: Result<(map<int, Bytes>, Option<Bytes>), ChannelError>)
    requires count <= MAX_INT64
    ensures r.Ok? <==> StatusAccepted(channel, count)
    ensures r.Ok? ==> r.value == (Denoted(channel, count), if channel.Scalar? then Some(channel.text) else None)
  {
    match channel
    case Absent =>
      return Ok((map[], None));
    case Scalar(text) =>
      return Ok((map[], Some(text)));
    case Dense(_) =>
      var values := ParseStringChannel(channel, count, true, true);
      return if values.Ok? then Ok((values.value, None)) else Err(values.error);
    case Sparse(_) =>
      var values := ParseStringChannel(channel, count, false, true);
      return if values.Ok? then Ok((values.value, None)) else Err(values.error);
    case _ =>
      return Err(WrongShape);
  }

  lemma DenotedInCube<V>(channel: Channel<V>, count: int)
    requires channel.Dense? ==> |channel.list| == count
    ensures forall i :: i in Denoted(channel, count) ==> 0 <= i < count
  {
  }
}
