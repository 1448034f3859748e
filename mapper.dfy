/**
 * The record mapper of `UserEventResource`: a `UserEvent` to a flat store item
 * (`getItem`) and back (`getUserEvent`).
 */
module Mapper {
  import opened Wrappers
  import opened Decimal
  import opened Codec
  import opened Model

  /** A store item: attribute values by field name. */
  type Item = map<string, AttributeValue>

  /** The item's time to live, three minutes in milliseconds. */
  const TtlMillis: int := 3 * 60 * 1000

  /** A `long` written as a number attribute. */
  function NumberAttribute(x: Long): AttributeValue {
    Unset.(n := Some(Render(x)))
  }

  /** Whether `getItem` writes the payload: it is non-null and non-empty. */
  predicate HasPayload(e: Event) {
    e.eventData.Some? && e.eventData.value != map[]
  }

  /**
   * `getItem`, with `now` the clock reading in epoch milliseconds. The
   * required fields are checked in `getItem`'s order; the expiry instant is
   * computed between the timestamp and event-type checks and overflows when it
   * leaves the `long` range.
   */
  function ToItem(e: Event, now: Long): (r: Result<Item, Error>)
    ensures r.Success? ==> r.value.Keys >= {UserIdField, TimestampField, ExpiresAfterField, EventTypeField}
    ensures r.Success? ==> (EventDataField in r.value <==> HasPayload(e))
  {
    if e.userId.None? then Failure(MissingField(UserIdField))
    else if e.timestamp.None? then Failure(MissingField(TimestampField))
    else if !IsLong(now + TtlMillis) then Failure(ArithmeticOverflow)
    else if e.eventType.None? then Failure(MissingField(EventTypeField))
    else
      var item := map[
        UserIdField := NumberAttribute(e.userId.value),
        TimestampField := NumberAttribute(e.timestamp.value),
        ExpiresAfterField := NumberAttribute(now + TtlMillis),
        EventTypeField := Unset.(s := e.eventType)];
      if HasPayload(e) then Success(item[EventDataField := Encode(Map(e.eventData.value))])
      else Success(item)
  }

  /** Whether `item` holds `field` with an `n` member that `Long.parseLong` accepts. */
  predicate NumberReadable(item: Item, field: string) {
    field in item && item[field].n.Some? && ParseLong(item[field].n.value).Some?
  }

  /**
   * `Long.parseLong(item.get(field).n())`: a missing field is a null dereference,
   * an unset or malformed `n` member a number-format error.
   */
  function ReadNumber(item: Item, field: string): (r: Result<Long, Error>)
    ensures r.Success? <==> NumberReadable(item, field)
    ensures r.Success? ==> ParseLong(item[field].n.value) == Some(r.value)
    ensures r.Failure? ==> r.error == if field in item then MalformedNumber else MissingField(field)
  {
    if field !in item then Failure(MissingField(field))
    else if item[field].n.None? then Failure(MalformedNumber)
    else
      match ParseLong(item[field].n.value)
      case Some(x) => Success(x)
      case None => Failure(MalformedNumber)
  }

  /**
   * `getUserEvent`: the two numbers are parsed, the event type is whatever the
   * `s` member holds, and the payload is decoded only from a non-empty map.
   * `expiresAfter` is not read.
   */
  function FromItem(item: Item): (r: Result<Event, Error>)
    ensures r.Success? ==> r.value.userId.Some? && r.value.timestamp.Some?
    ensures r.Success? && r.value.eventData.Some? ==> r.value.eventData.value != map[]
  {
    var userId :- ReadNumber(item, UserIdField);
    var timestamp :- ReadNumber(item, TimestampField);
    if EventTypeField !in item then Failure(MissingField(EventTypeField))
    else
      var event := Event(Some(userId), Some(timestamp), item[EventTypeField].s, None);
      if EventDataField in item && item[EventDataField].m != map[] then
        var data :- DecodeMap(item[EventDataField].m, item[EventDataField]);
        Success(event.(eventData := Some(data)))
      else Success(event)
  }

  /** `getItem` succeeds exactly when the three required fields are set and the expiry fits a `long`. */
  lemma ToItemSucceeds(e: Event, now: Long)
    ensures ToItem(e, now).Success? <==>
      e.userId.Some? && e.timestamp.Some? && e.eventType.Some? && IsLong(now + TtlMillis)
    ensures e.userId.None? ==> ToItem(e, now) == Failure(MissingField(UserIdField))
    ensures e.userId.Some? && e.timestamp.None? ==> ToItem(e, now) == Failure(MissingField(TimestampField))
    ensures e.userId.Some? && e.timestamp.Some? && !IsLong(now + TtlMillis) ==>
      ToItem(e, now) == Failure(ArithmeticOverflow)
    ensures e.userId.Some? && e.timestamp.Some? && e.eventType.None? && IsLong(now + TtlMillis) ==>
      ToItem(e, now) == Failure(MissingField(EventTypeField))
  {
  }

  /** Whether the item carries a payload that `getUserEvent` decodes: a non-empty `eventData` map. */
  predicate HasStoredPayload(item: Item) {
    EventDataField in item && item[EventDataField].m != map[]
  }

  /**
   * `getUserEvent` succeeds exactly when both numbers are readable, the
   * `eventType` key is present (its `s` member may be unset) and a stored
   * payload decodes; otherwise it reports the first failure in the order
   * user id, timestamp, event type, payload.
   */
  lemma FromItemFails(item: Item)
    ensures FromItem(item).Success? <==>
      && NumberReadable(item, UserIdField)
      && NumberReadable(item, TimestampField)
      && EventTypeField in item
      && (HasStoredPayload(item) ==> DecodeMap(item[EventDataField].m, item[EventDataField]).Success?)
    ensures UserIdField !in item ==> FromItem(item) == Failure(MissingField(UserIdField))
    ensures UserIdField in item && !NumberReadable(item, UserIdField) ==>
      FromItem(item) == Failure(MalformedNumber)
    ensures NumberReadable(item, UserIdField) && TimestampField !in item ==>
      FromItem(item) == Failure(MissingField(TimestampField))
    ensures NumberReadable(item, UserIdField) && TimestampField in item && !NumberReadable(item, TimestampField) ==>
      FromItem(item) == Failure(MalformedNumber)
    ensures NumberReadable(item, UserIdField) && NumberReadable(item, TimestampField) && EventTypeField !in item ==>
      FromItem(item) == Failure(MissingField(EventTypeField))
    ensures (&& NumberReadable(item, UserIdField) && NumberReadable(item, TimestampField) && EventTypeField in item
             && HasStoredPayload(item) && DecodeMap(item[EventDataField].m, item[EventDataField]).Failure?) ==>
      FromItem(item) == Failure(MalformedNumber)
  {
  }

  /**
   * A written item holds `userId`, `timestamp` and `expiresAfter` as numbers and
   * `eventType` as a string, `eventData` only for a non-empty payload, and
   * nothing else.
   */
  lemma ToItemContents(e: Event, now: Long)
    requires ToItem(e, now).Success?
    ensures var item := ToItem(e, now).value;
      && item.Keys == {UserIdField, TimestampField, ExpiresAfterField, EventTypeField}
                      + (if HasPayload(e) then {EventDataField} else {})
      && MembersSet(item[UserIdField]) == {MemberN}
      && ParseLong(item[UserIdField].n.value) == e.userId
      && MembersSet(item[TimestampField]) == {MemberN}
      && ParseLong(item[TimestampField].n.value) == e.timestamp
      && MembersSet(item[EventTypeField]) == {MemberS}
      && item[EventTypeField].s == e.eventType
      && (HasPayload(e) ==> item[EventDataField] == Encode(Map(e.eventData.value)))
  {
    ParseRender(e.userId.value);
    ParseRender(e.timestamp.value);
  }

  /** The expiry written is the clock reading plus three minutes, so it lies strictly after it. */
  lemma ExpiresAfterNow(e: Event, now: Long)
    requires ToItem(e, now).Success?
    ensures var expires := ParseLong(ToItem(e, now).value[ExpiresAfterField].n.value);
      expires == Some(now + 180000) && expires.value > now
  {
    ParseRender(now + TtlMillis);
  }

  /** What reading an event back after writing it yields: the payload normalized, an empty one absent. */
  function ReadBack(e: Event): Result<Event, Error> {
    if !HasPayload(e) then Success(e.(eventData := None))
    else
      match NormalizeMap(e.eventData.value)
      case Success(data) => Success(e.(eventData := Some(data)))
      case Failure(err) => Failure(err)
  }

  /** The scalar fields of a written item read back as the event's own. */
  lemma ScalarsReadBack(e: Event, now: Long)
    requires ToItem(e, now).Success?
    ensures var item := ToItem(e, now).value;
      && ReadNumber(item, UserIdField) == Success(e.userId.value)
      && ReadNumber(item, TimestampField) == Success(e.timestamp.value)
      && EventTypeField in item && item[EventTypeField].s == e.eventType
  {
    ParseRender(e.userId.value);
    ParseRender(e.timestamp.value);
  }

  /** A written payload is stored exactly when it is non-empty, and decodes to its normalization. */
  lemma PayloadReadsBack(e: Event, now: Long)
    requires ToItem(e, now).Success?
    ensures var item := ToItem(e, now).value;
      && (HasStoredPayload(item) <==> HasPayload(e))
      && (HasPayload(e) ==>
            DecodeMap(item[EventDataField].m, item[EventDataField]) == NormalizeMap(e.eventData.value))
  {
    if HasPayload(e) {
      var data := e.eventData.value;
      DecodeEncodeMap(data);
      var item := ToItem(e, now).value;
      assert item[EventDataField] == Encode(Map(data));
      assert data.Keys != {};
    }
  }

  /** An item whose fields read back as `e`'s own is read as `ReadBack(e)`. */
  lemma FromItemOfWritten(item: Item, e: Event)
    requires e.userId.Some? && ReadNumber(item, UserIdField) == Success(e.userId.value)
    requires e.timestamp.Some? && ReadNumber(item, TimestampField) == Success(e.timestamp.value)
    requires EventTypeField in item && item[EventTypeField].s == e.eventType
    requires HasStoredPayload(item) <==> HasPayload(e)
    requires HasPayload(e) ==>
      DecodeMap(item[EventDataField].m, item[EventDataField]) == NormalizeMap(e.eventData.value)
    ensures FromItem(item) == ReadBack(e)
  {
  }

  /** `getUserEvent(getItem(e))` is `ReadBack(e)`, whatever the payload holds. */
  lemma RecordRoundTrip(e: Event, now: Long)
    requires ToItem(e, now).Success?
    ensures FromItem(ToItem(e, now).value) == ReadBack(e)
  {
    ScalarsReadBack(e, now);
    PayloadReadsBack(e, now);
    FromItemOfWritten(ToItem(e, now).value, e);
  }

  /**
   * For a payload of canonical values the record comes back exactly, except
   * that an empty payload comes back absent.
   */
  lemma RecordRoundTripExact(e: Event, now: Long)
    requires ToItem(e, now).Success?
    requires e.eventData.Some? ==> CanonicalMap(e.eventData.value)
    ensures FromItem(ToItem(e, now).value) ==
      Success(if HasPayload(e) then e else e.(eventData := None))
  {
    RecordRoundTrip(e, now);
    if HasPayload(e) {
      NormalizeMapFixesCanonical(e.eventData.value);
    }
  }

  /** A record read back carries both keys, and a payload only when it is non-empty. */
  lemma FromItemShape(item: Item)
    requires FromItem(item).Success?
    ensures var e := FromItem(item).value;
      && e.userId.Some? && ParseLong(item[UserIdField].n.value) == e.userId
      && e.timestamp.Some? && ParseLong(item[TimestampField].n.value) == e.timestamp
      && e.eventType == item[EventTypeField].s
      && (e.eventData.Some? <==> EventDataField in item && item[EventDataField].m != map[])
      && (e.eventData.Some? ==> e.eventData.value != map[] && CanonicalMap(e.eventData.value))
  {
    var e := FromItem(item).value;
    if e.eventData.Some? {
      DecodeMapIsCanonical(item[EventDataField].m, item[EventDataField]);
      assert e.eventData.value.Keys == item[EventDataField].m.Keys;
    }
  }

  /** `expiresAfter` is never surfaced: replacing or removing it does not change what is read. */
  lemma FromItemIgnoresExpiry(item: Item, a: AttributeValue)
    ensures FromItem(item[ExpiresAfterField := a]) == FromItem(item)
    ensures FromItem(item - {ExpiresAfterField}) == FromItem(item)
  {
  }
}
