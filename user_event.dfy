/** The `UserEvent` record and the names of the store item's fields. */
module Model {
  import opened Wrappers
  import opened Decimal
  import opened Codec

  const UserIdField: string := "userId"
  const TimestampField: string := "timestamp"
  const ExpiresAfterField: string := "expiresAfter"
  const EventTypeField: string := "eventType"
  const EventDataField: string := "eventData"

  function FieldNames(): seq<string> {
    [UserIdField, TimestampField, ExpiresAfterField, EventTypeField, EventDataField]
  }

  /** The five field names are pairwise distinct, so the mapper's keys never collide. */
  lemma FieldNamesDistinct()
    ensures forall i, j :: 0 <= i < j < |FieldNames()| ==> FieldNames()[i] != FieldNames()[j]
  {
  }

  /** The contents of a `UserEvent`; `None` is a field that is still null. */
  datatype Event = Event(
    userId: Option<Long>,
    timestamp: Option<Long>,
    eventType: Option<string>,
    eventData: Option<map<string, Value>>)

  /** A mutable user event whose fluent setters return the object itself. */
  class UserEvent {
    var userId: Option<Long>
    var timestamp: Option<Long>
    var eventType: Option<string>
    var eventData: Option<map<string, Value>>

    function State(): Event
      reads this
    {
      Event(userId, timestamp, eventType, eventData)
    }

    /** A new event has every field null. */
    constructor ()
      ensures State() == Event(None, None, None, None)
    {
      userId, timestamp, eventType, eventData := None, None, None, None;
    }

    function GetUserId(): (r: Option<Long>)
      reads this
      ensures r == State().userId
    {
      userId
    }

    function GetTimestamp(): (r: Option<Long>)
      reads this
      ensures r == State().timestamp
    {
      timestamp
    }

    function GetEventType(): (r: Option<string>)
      reads this
      ensures r == State().eventType
    {
      eventType
    }

    function GetEventData(): (r: Option<map<string, Value>>)
      reads this
      ensures r == State().eventData
    {
      eventData
    }

    method SetUserId(id: Option<Long>) returns (self: UserEvent)
      modifies this
      ensures self == this
      ensures GetUserId() == id
      ensures State() == old(State()).(userId := id)
    {
      userId := id;
      self := this;
    }

    method SetTimestamp(t: Option<Long>) returns (self: UserEvent)
      modifies this
      ensures self == this
      ensures GetTimestamp() == t
      ensures State() == old(State()).(timestamp := t)
    {
      timestamp := t;
      self := this;
    }

    method SetEventType(t: Option<string>) returns (self: UserEvent)
      modifies this
      ensures self == this
      ensures GetEventType() == t
      ensures State() == old(State()).(eventType := t)
    {
      eventType := t;
      self := this;
    }

    method SetEventData(data: Option<map<string, Value>>) returns (self: UserEvent)
      modifies this
      ensures self == this
      ensures GetEventData() == data
      ensures State() == old(State()).(eventData := data)
    {
      eventData := data;
      self := this;
    }
  }
}
