/**
 * The value codec of `UserEventResource`: conversion between a dynamically typed
 * payload value and the store's tagged `AttributeValue` wire format.
 */
module Codec {
  import opened Wrappers
  import opened Decimal

  /**
   * A payload value as the JSON layer hands it over: `null`, a `String`, an
   * integral `Number` (any width), a `Boolean`, a nested `Map`, or any other
   * object, which only matters through its `String.valueOf` text `repr`.
   */
  datatype Value =
    | Null
    | Str(str: string)
    | Num(num: int)
    | Bool(boolean: bool)
    | Map(entries: map<string, Value>)
    | Other(repr: string)

  /**
   * The store's `AttributeValue`, restricted to the members the codec touches.
   * `m` is never null: when it was not set it is the empty map, and `hasM` says
   * whether it was set.
   */
  datatype AttributeValue = AttributeValue(
    s: Option<string>,
    n: Option<string>,
    boolean: Option<bool>,
    m: map<string, AttributeValue>,
    hasM: bool,
    nul: Option<bool>)

  /** What `AttributeValue.builder().build()` yields: nothing set. */
  const Unset := AttributeValue(None, None, None, map[], false, None)

  /** The exceptions the codec and the record mapper can raise. */
  datatype Error =
    | MissingField(name: string)   // NullPointerException on an absent field
    | MalformedNumber              // NumberFormatException from Long.parseLong
    | ArithmeticOverflow           // ArithmeticException from Instant.toEpochMilli

  /** `getAttributeValue`: never fails; exactly one member is set. */
  function Encode(v: Value): (a: AttributeValue)
    ensures v.Map? ==> a.hasM && a.m.Keys == v.entries.Keys
    ensures !v.Map? ==> !a.hasM && a.m == map[]
    decreases v, 1
  {
    match v
    case Null => Unset.(nul := Some(true))
    case Str(text) => Unset.(s := Some(text))
    case Num(x) => Unset.(n := Some(Render(x)))
    case Bool(b) => Unset.(boolean := Some(b))
    case Map(entries) => Unset.(m := EncodeMap(entries), hasM := true)
    case Other(repr) => Unset.(s := Some(repr))
  }

  /** `getItemForMap`: every entry encoded under its own key. */
  function EncodeMap(data: map<string, Value>): (r: map<string, AttributeValue>)
    ensures r.Keys == data.Keys
    decreases Map(data), 0
  {
    map k | k in data :: Encode(data[k])
  }

  /**
   * `getValue`: the first member present in the order `s`, `n`, `bool`,
   * non-empty `m` decides; with none of them the result is null.
   */
  function Decode(a: AttributeValue): (r: Result<Value, Error>)
    ensures r.Failure? ==> r.error == MalformedNumber
    decreases a, 1
  {
    if a.s.Some? then Success(Str(a.s.value))
    else if a.n.Some? then
      match ParseLong(a.n.value)
      case Some(x) => Success(Num(x))
      case None => Failure(MalformedNumber)
    else if a.boolean.Some? then Success(Bool(a.boolean.value))
    else if a.m != map[] then
      match DecodeMap(a.m, a)
      case Success(entries) => Success(Map(entries))
      case Failure(e) => Failure(e)
    else Success(Null)
  }

  /**
   * `getData`: every entry decoded under its own key; fails when any entry fails.
   * `parent` is the attribute whose `m` is `item`; it only serves termination.
   */
  function DecodeMap(item: map<string, AttributeValue>, ghost parent: AttributeValue): (r: Result<map<string, Value>, Error>)
    requires parent.m == item
    ensures r.Success? ==> r.value.Keys == item.Keys
    ensures r.Failure? ==> r.error == MalformedNumber
    decreases parent, 0
  {
    if exists k :: k in item && Decode(item[k]).Failure? then Failure(MalformedNumber)
    else Success(map k | k in item :: Decode(item[k]).value)
  }

  /**
   * Reference definition of what a write followed by a read makes of a value:
   * an empty map becomes null, an unknown object becomes its string, and a
   * number outside the `long` range cannot be read back.
   */
  function Normalize(v: Value): Result<Value, Error>
    decreases v, 1
  {
    match v
    case Null => Success(Null)
    case Str(text) => Success(Str(text))
    case Num(x) => if IsLong(x) then Success(Num(x)) else Failure(MalformedNumber)
    case Bool(b) => Success(Bool(b))
    case Map(entries) =>
      if entries == map[] then Success(Null)
      else
        (match NormalizeMap(entries)
         case Success(normalized) => Success(Map(normalized))
         case Failure(e) => Failure(e))
    case Other(repr) => Success(Str(repr))
  }

  function NormalizeMap(data: map<string, Value>): Result<map<string, Value>, Error>
    decreases Map(data), 0
  {
    if exists k :: k in data && Normalize(data[k]).Failure? then Failure(MalformedNumber)
    else Success(map k | k in data :: Normalize(data[k]).value)
  }

  /** Values that survive a write and a read unchanged. */
  predicate Canonical(v: Value)
    decreases v, 1
  {
    match v
    case Null => true
    case Str(_) => true
    case Num(x) => IsLong(x)
    case Bool(_) => true
    case Map(entries) => entries != map[] && CanonicalMap(entries)
    case Other(_) => false
  }

  predicate CanonicalMap(data: map<string, Value>)
    decreases Map(data), 0
  {
    forall k :: k in data ==> Canonical(data[k])
  }

  /** The wire members of an attribute that are set. */
  datatype Member = MemberS | MemberN | MemberBool | MemberM | MemberNul

  function MembersSet(a: AttributeValue): set<Member> {
    (if a.s.Some? then {MemberS} else {})
    + (if a.n.Some? then {MemberN} else {})
    + (if a.boolean.Some? then {MemberBool} else {})
    + (if a.hasM then {MemberM} else {})
    + (if a.nul.Some? then {MemberNul} else {})
  }

  /** The member `getAttributeValue` chooses for each kind of value. */
  function MemberFor(v: Value): Member {
    match v
    case Null => MemberNul
    case Str(_) => MemberS
    case Num(_) => MemberN
    case Bool(_) => MemberBool
    case Map(_) => MemberM
    case Other(_) => MemberS
  }

  /** Encoding sets exactly one member, the one for the value's kind. */
  lemma EncodeSetsOneMember(v: Value)
    ensures MembersSet(Encode(v)) == {MemberFor(v)}
    ensures v.Null? ==> Encode(v).nul == Some(true)
    ensures v.Num? ==> ParseLong(Encode(v).n.value) == if IsLong(v.num) then Some(v.num) else None
  {
    if v.Num? {
      ParseRender(v.num);
    }
  }

  /** `getItemForMap` keeps the key set and encodes each value under its key. */
  lemma EncodeMapEntries(data: map<string, Value>)
    ensures EncodeMap(data).Keys == data.Keys
    ensures forall k :: k in data ==> EncodeMap(data)[k] == Encode(data[k])
  {
  }

  /** The attribute with only the highest-precedence member of `a` that decoding looks at. */
  function Deciding(a: AttributeValue): AttributeValue {
    if a.s.Some? then Unset.(s := a.s)
    else if a.n.Some? then Unset.(n := a.n)
    else if a.boolean.Some? then Unset.(boolean := a.boolean)
    else Unset.(m := a.m)
  }

  /**
   * Decoding depends only on the first member present in the order `s`, `n`,
   * `bool`, `m`: the lower-precedence members, `hasM` and `nul` are ignored.
   */
  lemma DecodePrecedence(a: AttributeValue)
    ensures Decode(a) == Decode(Deciding(a))
  {
  }

  /** An attribute with no scalar member and an empty map decodes to null. */
  lemma EmptyMapDecodesToNull(a: AttributeValue)
    requires a.s.None? && a.n.None? && a.boolean.None? && a.m == map[]
    ensures Decode(a) == Success(Null)
    ensures Decode(Encode(Map(map[]))) == Success(Null)
  {
  }

  /** Decoding after encoding is exactly `Normalize`. */
  lemma {:induction false} DecodeEncode(v: Value)
    ensures Decode(Encode(v)) == Normalize(v)
    decreases v, 1
  {
    match v
    case Null =>
    case Str(_) =>
    case Num(x) => ParseRender(x);
    case Bool(_) =>
    case Map(entries) =>
      if entries != map[] {
        DecodeEncodeMap(entries);
      }
    case Other(_) =>
  }

  lemma {:induction false} DecodeEncodeMap(data: map<string, Value>)
    ensures DecodeMap(EncodeMap(data), Encode(Map(data))) == NormalizeMap(data)
    decreases Map(data), 0
  {
    var encoded := EncodeMap(data);
    forall k | k in data
      ensures Decode(encoded[k]) == Normalize(data[k])
    {
      DecodeEncode(data[k]);
    }
    assert encoded.Keys == data.Keys;
    var decoded := DecodeMap(encoded, Encode(Map(data)));
    if decoded.Success? {
      assert NormalizeMap(data).Success?;
      assert decoded.value == NormalizeMap(data).value;
    }
  }

  /** Normalizing leaves a value unchanged exactly when it is canonical. */
  lemma {:induction false} NormalizeFixesCanonical(v: Value)
    ensures Normalize(v) == Success(v) <==> Canonical(v)
    decreases v, 1
  {
    match v
    case Null =>
    case Str(_) =>
    case Num(_) =>
    case Bool(_) =>
    case Map(entries) =>
      if entries != map[] {
        NormalizeMapFixesCanonical(entries);
      }
    case Other(_) =>
  }

  lemma {:induction false} NormalizeMapFixesCanonical(data: map<string, Value>)
    ensures NormalizeMap(data) == Success(data) <==> CanonicalMap(data)
    decreases Map(data), 0
  {
    forall k | k in data
      ensures Normalize(data[k]) == Success(data[k]) <==> Canonical(data[k])
    {
      NormalizeFixesCanonical(data[k]);
    }
    if NormalizeMap(data) == Success(data) {
      forall k | k in data
        ensures Normalize(data[k]) == Success(data[k])
      {
        assert Normalize(data[k]).Success?;
        assert NormalizeMap(data).value[k] == Normalize(data[k]).value;
      }
    }
    if CanonicalMap(data) {
      assert forall k :: k in data ==> Normalize(data[k]).Success?;
      assert NormalizeMap(data).Success?;
      assert NormalizeMap(data).value == data;
    }
  }

  /** Whatever decoding produces is canonical. */
  lemma {:induction false} DecodeIsCanonical(a: AttributeValue)
    requires Decode(a).Success?
    ensures Canonical(Decode(a).value)
    decreases a, 1
  {
    if a.s.None? && a.n.None? && a.boolean.None? && a.m != map[] {
      DecodeMapIsCanonical(a.m, a);
    }
  }

  lemma {:induction false} DecodeMapIsCanonical(item: map<string, AttributeValue>, parent: AttributeValue)
    requires parent.m == item
    requires DecodeMap(item, parent).Success?
    ensures CanonicalMap(DecodeMap(item, parent).value)
    decreases parent, 0
  {
    var data := DecodeMap(item, parent).value;
    forall k | k in data
      ensures Canonical(data[k])
    {
      DecodeIsCanonical(item[k]);
    }
  }

  /**
   * The round trip: a value comes back from a write and a read unchanged
   * exactly when it is canonical (no unknown object, no empty map at any
   * depth, every number within the `long` range).
   */
  lemma RoundTrip(v: Value)
    ensures Decode(Encode(v)) == Success(v) <==> Canonical(v)
  {
    DecodeEncode(v);
    NormalizeFixesCanonical(v);
  }

  /** A second write and read changes nothing more than the first did. */
  lemma RoundTripIdempotent(v: Value)
    requires Decode(Encode(v)).Success?
    ensures Decode(Encode(Decode(Encode(v)).value)) == Decode(Encode(v))
  {
    DecodeIsCanonical(Encode(v));
    RoundTrip(Decode(Encode(v)).value);
  }
}
