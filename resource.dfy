/**
 * The imperative side of `UserEventResource`: the methods that build their
 * results with successive `put` calls, each proved against the codec or
 * mapper function that specifies it.
 */
module Resource {
  import opened Wrappers
  import opened Decimal
  import opened Codec
  import opened Model
  import opened Mapper

  /** `getAttributeValue`. */
  method GetAttributeValue(v: Value) returns (a: AttributeValue)
    ensures a == Encode(v)
    decreases v, 1
  {
    match v {
      case Null => a := Unset.(nul := Some(true));
      case Str(text) => a := Unset.(s := Some(text));
      case Num(x) => a := Unset.(n := Some(Render(x)));
      case Bool(b) => a := Unset.(boolean := Some(b));
      case Map(entries) =>
        var item := GetItemForMap(entries);
        a := Unset.(m := item, hasM := true);
      case Other(repr) => a := Unset.(s := Some(repr));
    }
  }

  /** `getItemForMap`: one `put` per entry of the input. */
  method GetItemForMap(data: map<string, Value>) returns (result: map<string, AttributeValue>)
    ensures result.Keys == data.Keys
    ensures forall k :: k in data ==> result[k] == Encode(data[k])
    ensures result == EncodeMap(data)
    decreases Map(data), 0
  {
    result := map[];
    var pending := data.Keys;
    while pending != {}
      invariant pending <= data.Keys
      invariant result.Keys == data.Keys - pending
      invariant forall k :: k in result ==> result[k] == Encode(data[k])
      decreases pending
    {
      var k :| k in pending;
      var a := GetAttributeValue(data[k]);
      result := result[k := a];
      pending := pending - {k};
    }
  }

  /** `getValue`. */
  method GetValue(v: AttributeValue) returns (r: Result<Value, Error>)
    ensures r == Decode(v)
    decreases v, 1
  {
    if v.s.Some? {
      return Success(Str(v.s.value));
    } else if v.n.Some? {
      var x := ParseLong(v.n.value);
      if x.None? {
        return Failure(MalformedNumber);
      }
      return Success(Num(x.value));
    } else if v.boolean.Some? {
      return Success(Bool(v.boolean.value));
    } else if v.m != map[] {
      var data := GetData(v.m, v);
      if data.Failure? {
        return Failure(data.error);
      }
      return Success(Map(data.value));
    }
    return Success(Null);
  }

  /** `getData`: one `put` per entry; the first entry that fails to decode aborts. */
  method GetData(item: map<string, AttributeValue>, ghost parent: AttributeValue)
    returns (r: Result<map<string, Value>, Error>)
    requires parent.m == item
    ensures r.Success? ==> r.value.Keys == item.Keys
    ensures r == DecodeMap(item, parent)
    decreases parent, 0
  {
    var result := map[];
    var pending := item.Keys;
    while pending != {}
      invariant pending <= item.Keys
      invariant result.Keys == item.Keys - pending
      invariant forall k :: k in result ==> Decode(item[k]) == Success(result[k])
      decreases pending
    {
      var k :| k in pending;
      var v := GetValue(item[k]);
      if v.Failure? {
        assert k in item && Decode(item[k]).Failure?;
        return Failure(v.error);
      }
      result := result[k := v.value];
      pending := pending - {k};
    }
    assert forall k :: k in item ==> Decode(item[k]).Success?;
    assert result == map k | k in item :: Decode(item[k]).value;
    r := Success(result);
  }

  /** `getItem`, reading the event through its getters; `now` is the clock reading. */
  method GetItem(event: UserEvent, now: Long) returns (r: Result<Item, Error>)
    ensures r == ToItem(event.State(), now)
  {
    var userId := event.GetUserId();
    if userId.None? {
      return Failure(MissingField(UserIdField));
    }
    var timestamp := event.GetTimestamp();
    if timestamp.None? {
      return Failure(MissingField(TimestampField));
    }
    if !IsLong(now + TtlMillis) {
      return Failure(ArithmeticOverflow);
    }
    var expiresAfter: Long := now + TtlMillis;
    var eventType := event.GetEventType();
    if eventType.None? {
      return Failure(MissingField(EventTypeField));
    }
    var result: Item := map[];
    result := result[UserIdField := NumberAttribute(userId.value)];
    result := result[TimestampField := NumberAttribute(timestamp.value)];
    result := result[ExpiresAfterField := NumberAttribute(expiresAfter)];
    result := result[EventTypeField := Unset.(s := eventType)];
    var eventData := event.GetEventData();
    if eventData.Some? && eventData.value != map[] {
      var data := GetItemForMap(eventData.value);
      result := result[EventDataField := Unset.(m := data, hasM := true)];
    }
    r := Success(result);
  }

  /** `getUserEvent`: a new event filled in with the fluent setters. */
  method GetUserEvent(item: Item) returns (r: Result<UserEvent, Error>)
    ensures r.Failure? <==> FromItem(item).Failure?
    ensures r.Failure? ==> r.error == FromItem(item).error
    ensures r.Success? ==> fresh(r.value) && r.value.State() == FromItem(item).value
  {
    var userId :- ReadNumber(item, UserIdField);
    var timestamp :- ReadNumber(item, TimestampField);
    if EventTypeField !in item {
      return Failure(MissingField(EventTypeField));
    }
    var result := new UserEvent();
    result := result.SetUserId(Some(userId));
    result := result.SetTimestamp(Some(timestamp));
    result := result.SetEventType(item[EventTypeField].s);
    if EventDataField in item && item[EventDataField].m != map[] {
      var data :- GetData(item[EventDataField].m, item[EventDataField]);
      result := result.SetEventData(Some(data));
    }
    r := Success(result);
  }

  function States(events: seq<UserEvent>): (r: seq<Event>)
    reads events
    ensures |r| == |events|
    ensures forall i :: 0 <= i < |events| ==> r[i] == events[i].State()
  {
    if events == [] then [] else [events[0].State()] + States(events[1..])
  }

  /**
   * The items a batch write is given: every event mapped in order, with the
   * clock read once per event; the first event that cannot be mapped aborts.
   */
  function Batch(events: seq<Event>, clock: seq<Long>): (r: Result<seq<Item>, Error>)
    requires |clock| == |events|
    ensures r.Success? ==> |r.value| == |events|
  {
    if events == [] then Success([])
    else
      var first :- ToItem(events[0], clock[0]);
      var rest :- Batch(events[1..], clock[1..]);
      Success([first] + rest)
  }

  /** A batch succeeds exactly when every event maps, and then holds each event's item at its position. */
  lemma {:induction false} BatchSucceeds(events: seq<Event>, clock: seq<Long>)
    requires |clock| == |events|
    ensures Batch(events, clock).Success? <==>
      forall i :: 0 <= i < |events| ==> ToItem(events[i], clock[i]).Success?
    ensures Batch(events, clock).Success? ==>
      |Batch(events, clock).value| == |events| &&
      forall i :: 0 <= i < |events| ==> Batch(events, clock).value[i] == ToItem(events[i], clock[i]).value
  {
    if events != [] {
      BatchSucceeds(events[1..], clock[1..]);
      assert forall i :: 0 < i < |events| ==> events[1..][i - 1] == events[i] && clock[1..][i - 1] == clock[i];
    }
  }

  /** A failing batch reports the error of the first event that cannot be mapped. */
  lemma {:induction false} BatchFailsAtFirst(events: seq<Event>, clock: seq<Long>, j: nat)
    requires |clock| == |events| && j < |events|
    requires forall i :: 0 <= i < j ==> ToItem(events[i], clock[i]).Success?
    requires ToItem(events[j], clock[j]).Failure?
    ensures Batch(events, clock) == Failure(ToItem(events[j], clock[j]).error)
  {
    if j > 0 {
      assert forall i :: 0 <= i < j - 1 ==> events[1..][i] == events[i + 1] && clock[1..][i] == clock[i + 1];
      BatchFailsAtFirst(events[1..], clock[1..], j - 1);
    }
  }

  /**
   * `saveUserEvents` up to the write itself: `None` is the early return for an
   * empty list, which writes nothing; otherwise the result is the batch handed
   * to `batchWriteItem`, or the error of the first event that cannot be mapped.
   */
  method SaveUserEvents(events: seq<UserEvent>, clock: seq<Long>) returns (r: Result<Option<seq<Item>>, Error>)
    requires |clock| == |events|
    ensures r == Success(None) <==> events == []
    ensures r.Failure? <==> Batch(States(events), clock).Failure?
    ensures r.Failure? ==> r.error == Batch(States(events), clock).error
    ensures r.Success? && events != [] ==> r.value == Some(Batch(States(events), clock).value)
  {
    if |events| == 0 {
      assert States(events) == [] && clock == [];
      return Success(None);
    }
    ghost var states := States(events);
    var items: seq<Item> := [];
    for i := 0 to |events|
      invariant |items| == i
      invariant forall j :: 0 <= j < i ==> ToItem(states[j], clock[j]) == Success(items[j])
    {
      var item := GetItem(events[i], clock[i]);
      if item.Failure? {
        BatchFailsAtFirst(states, clock, i);
        return Failure(item.error);
      }
      items := items + [item.value];
    }
    BatchSucceeds(states, clock);
    assert Batch(states, clock).value == items;
    r := Success(Some(items));
  }
}
