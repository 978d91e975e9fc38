/** internal/jsonx/json.go: the first pass of DecodeStrict, which refuses repeated object names at every depth before
    encoding/json silently keeps the last one. Lexing is encoding/json's; the pass sees tokens. */
module Jsonx {
  import opened Basics
  import opened Utf8

  /** json.Token: a delimiter, a string, or any other scalar. */
  datatype Token = BeginObject | EndObject | BeginArray | EndArray | Text(text: Bytes) | Literal

  datatype JsonError =
    | UnexpectedEnd
    | NameNotString
    | RepeatedName
    | WrongObjectEnd
    | WrongArrayEnd
    | UnexpectedDelimiter
    | TrailingContent | InvalidUtf8

  // JSON trees.

  datatype Json = Leaf(token: Token) | Object(members: Members) | Array(items: Items)

  datatype Members = NoMembers | Member(name: Bytes, value: Json, others: Members)

  datatype Items = NoItems | Item(value: Json, others: Items)

  predicate Scalar(token: Token) {
    token.Text? || token.Literal?
  }

  /** Leaves are scalars. */
  predicate Proper(v: Json) {
    match v
    case Leaf(token) => Scalar(token)
    case Object(members) => ProperMembers(members)
    case Array(items) => ProperItems(items)
  }

  predicate ProperMembers(members: Members) {
    match members
    case NoMembers => true
    case Member(_, value, others) => Proper(value) && ProperMembers(others)
  }

  predicate ProperItems(items: Items) {
    match items
    case NoItems => true
    case Item(value, others) => Proper(value) && ProperItems(others)
  }

  function Tokens(v: Json): seq<Token> {
    match v
    case Leaf(token) => [token]
    case Object(members) => [BeginObject] + MemberTokens(members) + [EndObject]
    case Array(items) => [BeginArray] + ItemTokens(items) + [EndArray]
  }

  function MemberTokens(members: Members): seq<Token> {
    match members
    case NoMembers => []
    case Member(name, value, others) => [Text(name)] + Tokens(value) + MemberTokens(others)
  }

  function ItemTokens(items: Items): seq<Token> {
    match items
    case NoItems => []
    case Item(value, others) => Tokens(value) + ItemTokens(others)
  }

  function Names(members: Members): seq<Bytes> {
    match members
    case NoMembers => []
    case Member(name, _, others) => [name] + Names(others)
  }

  /** No object at any depth repeats a name (section 4 of RFC 8259: names within an object SHOULD be unique). */
  predicate UniqueNames(v: Json) {
    match v
    case Leaf(_) => true
    case Object(members) => Distinct(Names(members)) && UniqueInMembers(members)
    case Array(items) => UniqueInItems(items)
  }

  predicate UniqueInMembers(members: Members) {
    match members
    case NoMembers => true
    case Member(_, value, others) => UniqueNames(value) && UniqueInMembers(others)
  }

  predicate UniqueInItems(items: Items) {
    match items
    case NoItems => true
    case Item(value, others) => UniqueNames(value) && UniqueInItems(others)
  }

  /** One value is another or stands somewhere inside it. */
  ghost predicate Inside(u: Json, v: Json) {
    u == v || match v
              case Leaf(_) => false
              case Object(members) => InsideMembers(u, members)
              case Array(items) => InsideItems(u, items)
  }

  ghost predicate InsideMembers(u: Json, members: Members) {
    match members
    case NoMembers => false
    case Member(_, value, others) => Inside(u, value) || InsideMembers(u, others)
  }

  ghost predicate InsideItems(u: Json, items: Items) {
    match items
    case NoItems => false
    case Item(value, others) => Inside(u, value) || InsideItems(u, others)
  }

  ghost predicate FineHere(u: Json) {
    && (u.Leaf? ==> u.token.Text? || u.token.Literal?)
    && (u.Object? ==> Distinct(Names(u.members)))
  }

  /** Every leaf inside is a scalar, and every object inside has different names. */
  ghost predicate Fine(v: Json) {
    forall u :: Inside(u, v) ==> FineHere(u)
  }

  lemma {:induction false} FineIff(v: Json)
    ensures Proper(v) && UniqueNames(v) <==> Fine(v)
  {
    match v
    case Leaf(token) =>
      assert FineHere(v) <==> Scalar(token);
      assert forall u :: Inside(u, v) <==> u == v;
    case Object(members) =>
      FineMembers(members);
      assert FineHere(v) <==> Distinct(Names(members));
      assert Inside(v, v) && forall u :: Inside(u, v) <==> u == v || InsideMembers(u, members);
    case Array(items) =>
      FineItems(items);
      assert FineHere(v);
      assert Inside(v, v) && forall u :: Inside(u, v) <==> u == v || InsideItems(u, items);
  }

  lemma {:induction false} FineMembers(members: Members)
    ensures ProperMembers(members) && UniqueInMembers(members)
            <==> forall u :: InsideMembers(u, members) ==> FineHere(u)
  {
    match members
    case NoMembers =>
    case Member(_, value, others) =>
      FineIff(value);
      FineMembers(others);
      assert forall u :: Inside(u, value) ==> InsideMembers(u, members);
      assert forall u :: InsideMembers(u, others) ==> InsideMembers(u, members);
  }

  lemma {:induction false} FineItems(items: Items)
    ensures ProperItems(items) && UniqueInItems(items) <==> forall u :: InsideItems(u, items) ==> FineHere(u)
  {
    match items
    case NoItems =>
    case Item(value, others) =>
      FineIff(value);
      FineItems(others);
      assert forall u :: Inside(u, value) ==> InsideItems(u, items);
      assert forall u :: InsideItems(u, others) ==> InsideItems(u, items);
  }

  // What the pass accepts, as the position behind what it consumes.

  function ValueEnd(ts: seq<Token>, p: nat): (end: Option<nat>)
    ensures end.Some? ==> p < end.value <= |ts|
    decreases |ts| - p, 0
  {
    if p >= |ts| then None
    else match ts[p]
      case BeginObject => MembersEnd(ts, p + 1, {})
      case BeginArray => ItemsEnd(ts, p + 1)
      case EndObject => None
      case EndArray => None
      case _ => Some(p + 1)
  }

  /** The members of an object and its closing brace, with no name from `seen`. */
  function MembersEnd(ts: seq<Token>, p: nat, seen: set<Bytes>): (end: Option<nat>)
    ensures end.Some? ==> p < end.value <= |ts|
    decreases |ts| - p, 1
  {
    if p >= |ts| then None
    else match ts[p]
      case EndObject => Some(p + 1)
      case Text(name) =>
        if name in seen then None else
        var value := ValueEnd(ts, p + 1);
        if value.None? then None else MembersEnd(ts, value.value, seen + {name})
      case _ => None
  }

  function ItemsEnd(ts: seq<Token>, p: nat): (end: Option<nat>)
    ensures end.Some? ==> p < end.value <= |ts|
    decreases |ts| - p, 1
  {
    if p >= |ts| then None
    else if ts[p] == EndArray then Some(p + 1)
    else
      var value := ValueEnd(ts, p);
      if value.None? then None else ItemsEnd(ts, value.value)
  }

  /** `part` stands at position `p`. */
  predicate StandsAt(part: seq<Token>, ts: seq<Token>, p: nat) {
    p + |part| <= |ts| && forall i :: 0 <= i < |part| ==> part[i] == ts[p + i]
  }

  lemma StandsInTurn(a: seq<Token>, b: seq<Token>, ts: seq<Token>, p: nat)
    ensures StandsAt(a + b, ts, p) <==> StandsAt(a, ts, p) && StandsAt(b, ts, p + |a|)
  {
    if p + |a| + |b| <= |ts| {
      assert forall i :: 0 <= i < |a| ==> (a + b)[i] == a[i];
      assert forall i :: 0 <= i < |b| ==> b[i] == (a + b)[|a| + i];
      if StandsAt(a, ts, p) && StandsAt(b, ts, p + |a|) {
        forall i | 0 <= i < |a + b| ensures (a + b)[i] == ts[p + i] {
          if i >= |a| {
            assert b[i - |a|] == ts[p + |a| + (i - |a|)];
          }
        }
      }
    }
  }

  lemma StandsSingle(token: Token, ts: seq<Token>, p: nat)
    ensures StandsAt([token], ts, p) <==> p < |ts| && ts[p] == token
  {
    if StandsAt([token], ts, p) {
      assert [token][0] == ts[p + 0];
    }
  }

  // Completeness and refusal: on the tokens of a tree.

  lemma ObjectShape(members: Members, ts: seq<Token>, p: nat)
    requires StandsAt(Tokens(Object(members)), ts, p)
    ensures |Tokens(Object(members))| == |MemberTokens(members)| + 2
    ensures p < |ts| && ts[p] == BeginObject && StandsAt(MemberTokens(members) + [EndObject], ts, p + 1)
  {
    assert Tokens(Object(members)) == [BeginObject] + (MemberTokens(members) + [EndObject]);
    StandsInTurn([BeginObject], MemberTokens(members) + [EndObject], ts, p);
    StandsSingle(BeginObject, ts, p);
  }

  lemma ArrayShape(items: Items, ts: seq<Token>, p: nat)
    requires StandsAt(Tokens(Array(items)), ts, p)
    ensures |Tokens(Array(items))| == |ItemTokens(items)| + 2
    ensures p < |ts| && ts[p] == BeginArray && StandsAt(ItemTokens(items) + [EndArray], ts, p + 1)
  {
    assert Tokens(Array(items)) == [BeginArray] + (ItemTokens(items) + [EndArray]);
    StandsInTurn([BeginArray], ItemTokens(items) + [EndArray], ts, p);
    StandsSingle(BeginArray, ts, p);
  }

  /** On the tokens of a value, whatever follows them, the pass accepts exactly when no object repeats a name, and
      consumes exactly the value. */
  lemma {:induction false} ValueDecided(v: Json, ts: seq<Token>, p: nat)
    requires Proper(v) && StandsAt(Tokens(v), ts, p)
    ensures ValueEnd(ts, p) == if UniqueNames(v) then Some(p + |Tokens(v)|) else None
  {
    match v
    case Leaf(token) =>
      StandsSingle(token, ts, p);
    case Object(members) =>
      ObjectShape(members, ts, p);
      MembersDecided(members, ts, p + 1, {});
    case Array(items) =>
      ArrayShape(items, ts, p);
      ItemsDecided(items, ts, p + 1);
  }

  /** The names are different, none is in `seen`, and no value repeats a name. */
  ghost predicate MembersAccepted(members: Members, seen: set<Bytes>) {
    (forall s :: s in Names(members) ==> s !in seen) && Distinct(Names(members)) && UniqueInMembers(members)
  }

  /** Where the pass is after the members that stand at p, if it accepts them. */
  ghost function MembersVerdict(members: Members, p: nat, seen: set<Bytes>): Option<nat> {
    if MembersAccepted(members, seen) then Some(p + |MemberTokens(members)| + 1) else None
  }

  lemma MemberAccepted(name: Bytes, value: Json, others: Members, seen: set<Bytes>)
    ensures MembersAccepted(Member(name, value, others), seen)
            <==> name !in seen && UniqueNames(value) && MembersAccepted(others, seen + {name})
  {
    var names := Names(others);
    DistinctCons(name, names);
    assert name in [name] + names;
    forall s ensures s in [name] + names <==> s == name || s in names {
    }
  }

  lemma DistinctCons(name: Bytes, names: seq<Bytes>)
    ensures Distinct([name] + names) <==> name !in names && Distinct(names)
  {
    var all := [name] + names;
    assert forall i :: 0 <= i < |names| ==> all[i + 1] == names[i];
    if Distinct(all) {
      forall i, j | 0 <= i < j < |names| ensures names[i] != names[j] {
        assert all[i + 1] != all[j + 1];
      }
      forall i | 0 <= i < |names| ensures names[i] != name {
        assert all[0] != all[i + 1];
      }
    }
  }

  lemma MemberShape(name: Bytes, value: Json, others: Members, ts: seq<Token>, p: nat)
    ensures |MemberTokens(Member(name, value, others))| == 1 + |Tokens(value)| + |MemberTokens(others)|
    ensures StandsAt(MemberTokens(Member(name, value, others)) + [EndObject], ts, p) <==>
            && p < |ts| && ts[p] == Text(name) && StandsAt(Tokens(value), ts, p + 1)
            && StandsAt(MemberTokens(others) + [EndObject], ts, p + 1 + |Tokens(value)|)
  {
    var tail := MemberTokens(others) + [EndObject];
    assert MemberTokens(Member(name, value, others)) + [EndObject] == [Text(name)] + (Tokens(value) + tail);
    StandsSingle(Text(name), ts, p);
    StandsInTurn([Text(name)], Tokens(value) + tail, ts, p);
    StandsInTurn(Tokens(value), tail, ts, p + 1);
  }

  lemma MemberVerdict(name: Bytes, value: Json, others: Members, p: nat, seen: set<Bytes>)
    requires |MemberTokens(Member(name, value, others))| == 1 + |Tokens(value)| + |MemberTokens(others)|
    ensures MembersVerdict(Member(name, value, others), p, seen)
            == if name in seen || !UniqueNames(value) then None
               else MembersVerdict(others, p + 1 + |Tokens(value)|, seen + {name})
  {
    MemberAccepted(name, value, others, seen);
  }

  /** The pass over one member. */
  lemma MemberPass(ts: seq<Token>, p: nat, seen: set<Bytes>, name: Bytes)
    requires p < |ts| && ts[p] == Text(name)
    ensures MembersEnd(ts, p, seen)
            == if name in seen || ValueEnd(ts, p + 1).None? then None
               else MembersEnd(ts, ValueEnd(ts, p + 1).value, seen + {name})
  {
  }

  lemma MemberDecided(name: Bytes, value: Json, others: Members, ts: seq<Token>, p: nat, seen: set<Bytes>)
    requires |MemberTokens(Member(name, value, others))| == 1 + |Tokens(value)| + |MemberTokens(others)|
    requires p < |ts| && ts[p] == Text(name)
    requires ValueEnd(ts, p + 1) == if UniqueNames(value) then Some(p + 1 + |Tokens(value)|) else None
    requires var after := p + 1 + |Tokens(value)|;
      MembersEnd(ts, after, seen + {name}) == MembersVerdict(others, after, seen + {name})
    ensures MembersEnd(ts, p, seen) == MembersVerdict(Member(name, value, others), p, seen)
  {
    MemberVerdict(name, value, others, p, seen);
    MemberPass(ts, p, seen, name);
  }

  lemma NoMembersDecided(ts: seq<Token>, p: nat, seen: set<Bytes>)
    requires StandsAt(MemberTokens(NoMembers) + [EndObject], ts, p)
    ensures MembersEnd(ts, p, seen) == MembersVerdict(NoMembers, p, seen)
  {
    assert MemberTokens(NoMembers) + [EndObject] == [EndObject];
    StandsSingle(EndObject, ts, p);
  }

  lemma {:induction false} MembersDecided(members: Members, ts: seq<Token>, p: nat, seen: set<Bytes>)
    requires ProperMembers(members) && StandsAt(MemberTokens(members) + [EndObject], ts, p)
    ensures MembersEnd(ts, p, seen) == MembersVerdict(members, p, seen)
  {
    match members
    case NoMembers =>
      NoMembersDecided(ts, p, seen);
    case Member(name, value, others) =>
      MemberShape(name, value, others, ts, p);
      ValueDecided(value, ts, p + 1);
      MembersDecided(others, ts, p + 1 + |Tokens(value)|, seen + {name});
      MemberDecided(name, value, others, ts, p, seen);
  }

  lemma ItemShape(value: Json, others: Items, ts: seq<Token>, p: nat)
    ensures |ItemTokens(Item(value, others))| == |Tokens(value)| + |ItemTokens(others)|
    ensures StandsAt(ItemTokens(Item(value, others)) + [EndArray], ts, p) <==>
            StandsAt(Tokens(value), ts, p) && StandsAt(ItemTokens(others) + [EndArray], ts, p + |Tokens(value)|)
  {
    var tail := ItemTokens(others) + [EndArray];
    assert ItemTokens(Item(value, others)) + [EndArray] == Tokens(value) + tail;
    StandsInTurn(Tokens(value), tail, ts, p);
  }

  lemma ItemDecided(value: Json, others: Items, ts: seq<Token>, p: nat)
    requires p < |ts| && ts[p] != EndArray
    requires ValueEnd(ts, p) == if UniqueNames(value) then Some(p + |Tokens(value)|) else None
    requires ItemsEnd(ts, p + |Tokens(value)|)
             == if UniqueInItems(others) then Some(p + |Tokens(value)| + |ItemTokens(others)| + 1) else None
    ensures ItemsEnd(ts, p)
            == if UniqueInItems(Item(value, others)) then Some(p + |Tokens(value)| + |ItemTokens(others)| + 1) else None
  {
  }

  lemma {:induction false} ItemsDecided(items: Items, ts: seq<Token>, p: nat)
    requires ProperItems(items) && StandsAt(ItemTokens(items) + [EndArray], ts, p)
    ensures ItemsEnd(ts, p) == if UniqueInItems(items) then Some(p + |ItemTokens(items)| + 1) else None
  {
    match items
    case NoItems =>
      assert ItemTokens(items) + [EndArray] == [EndArray];
      StandsSingle(EndArray, ts, p);
    case Item(value, others) =>
      ItemShape(value, others, ts, p);
      FirstToken(value);
      assert ts[p] == Tokens(value)[0];
      ValueDecided(value, ts, p);
      ItemsDecided(others, ts, p + |Tokens(value)|);
      ItemDecided(value, others, ts, p);
  }

  lemma FirstToken(v: Json)
    requires Proper(v)
    ensures Tokens(v) != [] && Tokens(v)[0] != EndArray && Tokens(v)[0] != EndObject
  {
  }

  // Soundness: on any tokens.

  /** Whatever the pass accepts is the tokens of one value without repeated names. */
  lemma {:induction false} ValueParsed(ts: seq<Token>, p: nat) returns (v: Json)
    requires ValueEnd(ts, p).Some?
    ensures Proper(v) && UniqueNames(v) && StandsAt(Tokens(v), ts, p) && ValueEnd(ts, p).value == p + |Tokens(v)|
    decreases |ts| - p, 0
  {
    StandsSingle(ts[p], ts, p);
    match ts[p]
    case BeginObject =>
      var members := MembersParsed(ts, p + 1, {});
      v := Object(members);
      StandsInTurn([BeginObject], MemberTokens(members) + [EndObject], ts, p);
      assert Tokens(v) == [BeginObject] + (MemberTokens(members) + [EndObject]);
    case BeginArray =>
      var items := ItemsParsed(ts, p + 1);
      v := Array(items);
      StandsInTurn([BeginArray], ItemTokens(items) + [EndArray], ts, p);
      assert Tokens(v) == [BeginArray] + (ItemTokens(items) + [EndArray]);
    case EndObject =>
    case EndArray =>
    case _ =>
      v := Leaf(ts[p]);
  }

  lemma MemberParsed(name: Bytes, value: Json, others: Members, ts: seq<Token>, p: nat, seen: set<Bytes>)
    requires p < |ts| && ts[p] == Text(name) && MembersEnd(ts, p, seen).Some?
    requires UniqueNames(value) && ValueEnd(ts, p + 1) == Some(p + 1 + |Tokens(value)|)
    requires MembersAccepted(others, seen + {name})
    requires MembersEnd(ts, p + 1 + |Tokens(value)|, seen + {name})
             == Some(p + 1 + |Tokens(value)| + |MemberTokens(others)| + 1)
    ensures MembersAccepted(Member(name, value, others), seen)
    ensures MembersEnd(ts, p, seen) == Some(p + 1 + |Tokens(value)| + |MemberTokens(others)| + 1)
  {
    MemberAccepted(name, value, others, seen);
  }

  lemma {:induction false} MembersParsed(ts: seq<Token>, p: nat, seen: set<Bytes>) returns (members: Members)
    requires MembersEnd(ts, p, seen).Some?
    ensures ProperMembers(members) && MembersAccepted(members, seen)
    ensures StandsAt(MemberTokens(members) + [EndObject], ts, p)
    ensures MembersEnd(ts, p, seen).value == p + |MemberTokens(members)| + 1
    decreases |ts| - p, 1
  {
    StandsSingle(ts[p], ts, p);
    match ts[p]
    case EndObject =>
      members := NoMembers;
      assert MemberTokens(members) + [EndObject] == [EndObject];
    case Text(name) =>
      var value := ValueParsed(ts, p + 1);
      var others := MembersParsed(ts, p + 1 + |Tokens(value)|, seen + {name});
      members := Member(name, value, others);
      MemberShape(name, value, others, ts, p);
      MemberParsed(name, value, others, ts, p, seen);
  }

  lemma {:induction false} ItemsParsed(ts: seq<Token>, p: nat) returns (items: Items)
    requires ItemsEnd(ts, p).Some?
    ensures ProperItems(items) && UniqueInItems(items)
    ensures StandsAt(ItemTokens(items) + [EndArray], ts, p)
    ensures ItemsEnd(ts, p).value == p + |ItemTokens(items)| + 1
    decreases |ts| - p, 1
  {
    if ts[p] == EndArray {
      items := NoItems;
      assert ItemTokens(items) + [EndArray] == [EndArray];
      StandsSingle(EndArray, ts, p);
    } else {
      var value := ValueParsed(ts, p);
      var others := ItemsParsed(ts, ValueEnd(ts, p).value);
      items := Item(value, others);
      ItemShape(value, others, ts, p);
    }
  }

  // The pass itself.

  /** json.Decoder as the pass uses it: a cursor over the tokens. */
  class Decoder {
    const tokens: seq<Token>
    var position: nat

    constructor (tokens: seq<Token>)
      ensures this.tokens == tokens && position == 0
    {
      this.tokens := tokens;
      position := 0;
    }

    ghost predicate Valid()
      reads this
    {
      position <= |tokens|
    }

    /** The next token is an element of the object or array being read. */
    ghost predicate Inside()
      reads this
    {
      position < |tokens| && !tokens[position].EndObject? && !tokens[position].EndArray?
    }

    /** Token: the next token, or an error at the end of the input, which consumes nothing. */
    method Next() returns (token: Option<Token>)
      requires Valid()
      modifies this`position
      ensures Valid()
      ensures old(position) == |tokens| ==> token == None && position == old(position)
      ensures old(position) < |tokens| ==> token == Some(tokens[old(position)]) && position == old(position) + 1
    {
      if position == |tokens| {
        return None;
      }
      token := Some(tokens[position]);
      position := position + 1;
    }

    method More() returns (more: bool)
      requires Valid()
      ensures more <==> Inside()
    {
      more := position < |tokens| && !tokens[position].EndObject? && !tokens[position].EndArray?;
    }
  }

  /** Accepts exactly when ValueEnd does, and then leaves the cursor behind the value. */
  method ValidateValue(dec: Decoder) returns (error: Option<JsonError>)
    requires dec.Valid()
    modifies dec`position
    ensures dec.Valid() && dec.position >= old(dec.position)
    ensures error.None? <==> ValueEnd(dec.tokens, old(dec.position)).Some?
    ensures error.None? ==> Some(dec.position) == ValueEnd(dec.tokens, old(dec.position))
    decreases |dec.tokens| - dec.position, 0
  {
    var token := dec.Next();
    if token.None? {
      return Some(UnexpectedEnd);
    }
    match token.value
    case BeginObject =>
      error := ValidateMembers(dec);
    case BeginArray =>
      error := ValidateItems(dec);
    case EndObject =>
      error := Some(UnexpectedDelimiter);
    case EndArray =>
      error := Some(UnexpectedDelimiter);
    case _ =>
      error := None;
  }

  /** The loop over an object and its closing token. */
  method ValidateMembers(dec: Decoder) returns (error: Option<JsonError>)
    requires dec.Valid()
    modifies dec`position
    ensures dec.Valid() && dec.position >= old(dec.position)
    ensures error.None? <==> MembersEnd(dec.tokens, old(dec.position), {}).Some?
    ensures error.None? ==> Some(dec.position) == MembersEnd(dec.tokens, old(dec.position), {})
    decreases |dec.tokens| - dec.position, 1
  {
    var seen: set<Bytes> := {};
    var more := dec.More();
    while more
      invariant dec.Valid() && dec.position >= old(dec.position)
      invariant more <==> dec.Inside()
      invariant MembersEnd(dec.tokens, old(dec.position), {}) == MembersEnd(dec.tokens, dec.position, seen)
      decreases |dec.tokens| - dec.position
    {
      var token := dec.Next();
      if !token.value.Text? {
        return Some(NameNotString);
      }
      var name := token.value.text;
      if name in seen {
        return Some(RepeatedName);
      }
      seen := seen + {name};
      error := ValidateValue(dec);
      if error.Some? {
        return;
      }
      more := dec.More();
    }
    var end := dec.Next();
    if end.None? {
      return Some(UnexpectedEnd);
    }
    return if end.value == EndObject then None else Some(WrongObjectEnd);
  }

  /** The loop over an array and its closing token. */
  method ValidateItems(dec: Decoder) returns (error: Option<JsonError>)
    requires dec.Valid()
    modifies dec`position
    ensures dec.Valid() && dec.position >= old(dec.position)
    ensures error.None? <==> ItemsEnd(dec.tokens, old(dec.position)).Some?
    ensures error.None? ==> Some(dec.position) == ItemsEnd(dec.tokens, old(dec.position))
    decreases |dec.tokens| - dec.position, 1
  {
    var more := dec.More();
    while more
      invariant dec.Valid() && dec.position >= old(dec.position)
      invariant more <==> dec.Inside()
      invariant ItemsEnd(dec.tokens, old(dec.position)) == ItemsEnd(dec.tokens, dec.position)
      decreases |dec.tokens| - dec.position
    {
      error := ValidateValue(dec);
      if error.Some? {
        return;
      }
      more := dec.More();
    }
    var end := dec.Next();
    if end.None? {
      return Some(UnexpectedEnd);
    }
    return if end.value == EndArray then None else Some(WrongArrayEnd);
  }

  /** One value and nothing behind it. */
  predicate Document(ts: seq<Token>) {
    ValueEnd(ts, 0) == Some(|ts|)
  }

  /** The first pass of DecodeStrict, over the bytes of a document and the tokens that they spell. */
  method CheckDocument(data: Bytes, tokens: seq<Token>) returns (error: Option<JsonError>)
    ensures error.None? <==> ValidUtf8(data) && Document(tokens)
  {
    if !ValidUtf8(data) {
      return Some(InvalidUtf8);
    }
    var dec := new Decoder(tokens);
    error := ValidateValue(dec);
    if error.Some? {
      return;
    }
    var trailing := dec.Next();
    return if trailing.None? then None else Some(TrailingContent);
  }

  /** The documents that pass are exactly the JSON values in which no object repeats a name, at any depth. */
  lemma DocumentsAreUnique(ts: seq<Token>)
    ensures Document(ts) <==> exists v :: Proper(v) && UniqueNames(v) && Tokens(v) == ts
    ensures Document(ts) <==> exists v :: Fine(v) && Tokens(v) == ts
  {
    forall v ensures Proper(v) && UniqueNames(v) <==> Fine(v) {
      FineIff(v);
    }
    if Document(ts) {
      var v := ValueParsed(ts, 0);
      assert Tokens(v) == ts;
    }
    forall v | Proper(v) && UniqueNames(v) && Tokens(v) == ts ensures Document(ts) {
      ValueDecided(v, ts, 0);
    }
  }
}
