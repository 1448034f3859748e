# User events on a key-value store: value codec and record mapper

This project models the core of a small service that stores timestamped user
events in DynamoDB. Each event (`UserEvent`) has a user id, a timestamp, an event
type and an optional nested payload. The payload is dynamically typed: null,
strings, numbers, booleans, nested maps. The core has two parts:

- the **value codec**. `getAttributeValue` and `getItemForMap` encode a payload
  value into the store's tagged `AttributeValue` format. `getValue` and `getData`
  decode it again.
- the **record mapper**. `getItem` turns a `UserEvent` into a flat store item,
  adding an `expiresAfter` instant three minutes after the clock reading.
  `getUserEvent` reads an item back into a new `UserEvent`.

Modules, in dependency order:

- `Wrappers` (`wrappers.dfy`): `Option` and `Result`.
- `Decimal` (`decimal.dfy`): Java's `long` range, `String.valueOf` for integral
  numbers (`Render`) and `Long.parseLong` (`ParseLong`), with the proof that
  parsing a rendering gives the number back exactly when it fits in a `long`.
- `Codec` (`codec.dfy`): the payload `Value`, the `AttributeValue`, the exceptions
  as `Error`, the specification functions `Encode`/`EncodeMap`/`Decode`/`DecodeMap`,
  a reference definition `Normalize` of what a write followed by a read makes of a
  value, and the lemmas relating them.
- `Model` (`user_event.dfy`): the five field-name constants and the `UserEvent`
  class with its fluent getters and setters. `State()` gives its contents as an
  `Event` value.
- `Mapper` (`mapper.dfy`): `ToItem` (`getItem`) and `FromItem` (`getUserEvent`) as
  functions, with lemmas on keys, preconditions, expiry and the record round trip.
- `Resource` (`resource.dfy`): `UserEventResource`'s methods in their imperative form. The
  loops add one entry at a time, as the `HashMap.put` calls do, and each method
  is proved equal to its specification function. `SaveUserEvents` maps a list of
  events to the batch written to the store.

Java exceptions are `Result` failures:

- `MissingField(name)` is the `NullPointerException` of `Objects.requireNonNull`,
  or of `item.get(name)` when the item has no such field.
- `MalformedNumber` is the `NumberFormatException` of `Long.parseLong`.
- `ArithmeticOverflow` is the `ArithmeticException` of `Instant.toEpochMilli`.

The clock `Instant.now()` is an input: `now` is its reading in epoch
milliseconds. `SaveUserEvents` takes one reading per event, because `getItem`
reads the clock once per event.

A number in the model is an integer of any width (Java `Integer`, `Long`,
`BigInteger`). It is written as its decimal text. On reading, `Long.parseLong`
rejects text outside the `long` range.

Behaviour of the code that the model keeps:

- `getValue` throws `NumberFormatException` (`MalformedNumber`) when the text of
  an `n` member does not parse (`UserEventResource.java` line 182).
- `getUserEvent` reads an item whose `eventType` attribute has no `s` member as
  an event with a null event type, without an error. Only a missing `eventType`
  key fails (`Mapper.FromItemFails`).
- `getItem` reports the first missing field in the order user id, timestamp,
  event type. It computes the expiry between the timestamp and event-type checks
  (`Mapper.ToItemSucceeds`).

## Model

| member | source | states |
|---|---|---|
| `Codec.Encode` | src/main/java/de/consol/labs/aws/introtodynamodb/UserEventResource.java:140-155 | `getAttributeValue` as a total function: a map value sets `m` (and `hasM`) with exactly its keys, every other value leaves `m` unset; the one-member, inverse and round-trip properties are in `EncodeSetsOneMember`, `DecodeEncode` and `RoundTrip` |
| `Codec.EncodeMap` | src/main/java/de/consol/labs/aws/introtodynamodb/UserEventResource.java:132-138 | `getItemForMap` keeps exactly the input's key set; each entry's encoding is stated by `EncodeMapEntries` |
| `Decimal.Render` | src/main/java/de/consol/labs/aws/introtodynamodb/UserEventResource.java:146-148 | `String.valueOf` of an integral number: non-empty text starting with `-` exactly for a negative number, digits otherwise; read back by `ParseRender` |
| `Decimal.ParseLong` | src/main/java/de/consol/labs/aws/introtodynamodb/UserEventResource.java:182 | `Long.parseLong`: accepts only non-empty text, gives a non-positive number after a leading `-` and a non-negative one otherwise, rejects text starting with anything but a digit or a sign; inverse of `Render` by `ParseRender` |
| `Codec.EncodeSetsOneMember` | src/main/java/de/consol/labs/aws/introtodynamodb/UserEventResource.java:140-155 | encoding sets exactly one wire member, chosen by the value's kind (null gives `nul`, strings and unknown objects give `s`, numbers `n`, booleans `bool`, maps `m`); null sets `nul = true`; a number's text parses back to it exactly when it fits in a `long` |
| `Resource.GetAttributeValue` | src/main/java/de/consol/labs/aws/introtodynamodb/UserEventResource.java:140-155 | the method returns the encoding `Encode(v)` for every value, so it never fails |
| `Codec.EncodeMapEntries` | src/main/java/de/consol/labs/aws/introtodynamodb/UserEventResource.java:132-138 | the encoded map has exactly the input's key set, and each entry is the encoding of the input's value under that key |
| `Resource.GetItemForMap` | src/main/java/de/consol/labs/aws/introtodynamodb/UserEventResource.java:132-138 | the loop of `put` calls yields the same key set as its input, each key holding the encoding of its value |
| `Codec.Decode` | src/main/java/de/consol/labs/aws/introtodynamodb/UserEventResource.java:178-189 | the only error decoding can raise is the number-format one |
| `Codec.DecodePrecedence` | src/main/java/de/consol/labs/aws/introtodynamodb/UserEventResource.java:178-189 | decoding depends only on the first member present in the order `s`, `n`, `bool`, `m`; lower members, `hasM` and `nul` are ignored |
| `Codec.EmptyMapDecodesToNull` | src/main/java/de/consol/labs/aws/introtodynamodb/UserEventResource.java:185-188 | an attribute without scalar members and with an empty map decodes to null, so an encoded empty map reads back as null |
| `Codec.DecodeIsCanonical` | src/main/java/de/consol/labs/aws/introtodynamodb/UserEventResource.java:178-189 | every decoded value is canonical: no empty map at any depth, numbers within the `long` range, no unknown object |
| `Resource.GetValue` | src/main/java/de/consol/labs/aws/introtodynamodb/UserEventResource.java:178-189 | the method returns the decoding `Decode(v)`, error included |
| `Codec.DecodeMap` | src/main/java/de/consol/labs/aws/introtodynamodb/UserEventResource.java:170-176 | `getData`: on success the decoded map has exactly the input's keys; the only error is the number-format one; its relation to encoding is `DecodeEncodeMap`, used by `DecodeEncode` |
| `Resource.GetData` | src/main/java/de/consol/labs/aws/introtodynamodb/UserEventResource.java:170-176 | the loop either decodes every entry under its own key, or fails as soon as one entry fails; the result equals `DecodeMap` |
| `Decimal.ParseRender` | src/main/java/de/consol/labs/aws/introtodynamodb/UserEventResource.java:146-148 | `Long.parseLong` of `String.valueOf(x)` gives `x` back exactly when `x` fits in a `long`, and fails otherwise |
| `Codec.DecodeEncode` | src/main/java/de/consol/labs/aws/introtodynamodb/UserEventResource.java:140-189 | decoding an encoded value equals the reference `Normalize`: empty maps become null, unknown objects their string, numbers outside the `long` range fail |
| `Codec.RoundTrip` | src/main/java/de/consol/labs/aws/introtodynamodb/UserEventResource.java:140-189 | `Decode(Encode(v)) == v` holds exactly for canonical values (both directions) |
| `Codec.RoundTripIdempotent` | src/main/java/de/consol/labs/aws/introtodynamodb/UserEventResource.java:140-189 | a second encode and decode of a read-back value changes nothing more |
| `Mapper.ToItemSucceeds` | src/main/java/de/consol/labs/aws/introtodynamodb/UserEventResource.java:101-105 | `getItem` succeeds exactly when user id, timestamp and event type are set and the expiry fits a `long`; the first missing field, or the expiry overflow, is reported in `getItem`'s order |
| `Mapper.ToItemContents` | src/main/java/de/consol/labs/aws/introtodynamodb/UserEventResource.java:106-129 | the item holds exactly `userId`, `timestamp`, `expiresAfter` and `eventType`, plus `eventData` only for a non-null non-empty payload; the ids are number members that parse back to the event's values, the type is the `s` member, the payload is its encoded map |
| `Mapper.ExpiresAfterNow` | src/main/java/de/consol/labs/aws/introtodynamodb/UserEventResource.java:104-118 | `expiresAfter` parses to `now + 180000` milliseconds, strictly after `now` |
| `Mapper.ToItem` | src/main/java/de/consol/labs/aws/introtodynamodb/UserEventResource.java:101-130 | `getItem`: a written item always holds `userId`, `timestamp`, `expiresAfter` and `eventType`, and holds `eventData` exactly for a non-null non-empty payload; success, error order and contents are in `ToItemSucceeds`, `ToItemContents` and `ExpiresAfterNow` |
| `Mapper.ReadNumber` | src/main/java/de/consol/labs/aws/introtodynamodb/UserEventResource.java:159-160 | `Long.parseLong(item.get(field).n())` succeeds exactly when the field is present with an `n` member that parses, and then returns that number; a missing field is `MissingField`, an unset or malformed `n` is `MalformedNumber` |
| `Mapper.FromItem` | src/main/java/de/consol/labs/aws/introtodynamodb/UserEventResource.java:157-168 | `getUserEvent`: a record read back always has user id and timestamp, and never an empty payload; failure and error order are in `FromItemFails`, the round trip in `RecordRoundTrip` |
| `Mapper.FromItemFails` | src/main/java/de/consol/labs/aws/introtodynamodb/UserEventResource.java:157-168 | `getUserEvent` succeeds exactly when both numbers are readable, the `eventType` key is present (its `s` may be unset) and a non-empty payload decodes; errors come in the order user id, timestamp, event type, payload |
| `Mapper.FromItemShape` | src/main/java/de/consol/labs/aws/introtodynamodb/UserEventResource.java:157-168 | a record read back has user id and timestamp parsed from the `n` members, the event type from `s`, and a payload exactly when the item's `eventData` map is non-empty; that payload is non-empty and canonical |
| `Mapper.FromItemIgnoresExpiry` | src/main/java/de/consol/labs/aws/introtodynamodb/UserEventResource.java:157-168 | replacing or removing `expiresAfter` does not change what `getUserEvent` returns |
| `Mapper.RecordRoundTrip` | src/main/java/de/consol/labs/aws/introtodynamodb/UserEventResource.java:101-168 | reading back a written event gives the event with its payload normalized, an empty payload absent, for every payload |
| `Mapper.RecordRoundTripExact` | src/main/java/de/consol/labs/aws/introtodynamodb/UserEventResource.java:101-168 | for a payload of canonical values the written event reads back unchanged, except that an empty payload reads back absent |
| `Resource.GetItem` | src/main/java/de/consol/labs/aws/introtodynamodb/UserEventResource.java:101-130 | the sequence of `put` calls yields `ToItem` of the event's current contents, errors included |
| `Resource.GetUserEvent` | src/main/java/de/consol/labs/aws/introtodynamodb/UserEventResource.java:157-168 | fails exactly when `FromItem` fails, with the same error; otherwise returns a fresh `UserEvent` whose contents are `FromItem(item)` |
| `Resource.SaveUserEvents` | src/main/java/de/consol/labs/aws/introtodynamodb/UserEventResource.java:30-39 | the result is `None`, no write, exactly when there are no events; otherwise it fails exactly when `Batch` fails, with the same error, or is the batch of all events' items in order |
| `Resource.BatchSucceeds` | src/main/java/de/consol/labs/aws/introtodynamodb/UserEventResource.java:36-39 | the batch succeeds exactly when every event maps, and then holds each event's item at its position |
| `Resource.BatchFailsAtFirst` | src/main/java/de/consol/labs/aws/introtodynamodb/UserEventResource.java:36-39 | a failing batch reports the error of the first event that cannot be mapped |
| `Resource.Batch` | src/main/java/de/consol/labs/aws/introtodynamodb/UserEventResource.java:36-39 | the stream of `getWriteRequest` calls: a successful batch has one item per event; per-position contents and the first-failure rule are in `BatchSucceeds` and `BatchFailsAtFirst` |
| `Model.FieldNamesDistinct` | src/main/java/de/consol/labs/aws/introtodynamodb/model/UserEvent.java:7-11 | the five field names are pairwise distinct |
| `Model.UserEvent.constructor` | src/main/java/de/consol/labs/aws/introtodynamodb/model/UserEvent.java:13-16 | a new event has all four fields null |
| `Model.UserEvent.GetUserId` | src/main/java/de/consol/labs/aws/introtodynamodb/model/UserEvent.java:18-20 | returns the user id held in the event's contents |
| `Model.UserEvent.GetTimestamp` | src/main/java/de/consol/labs/aws/introtodynamodb/model/UserEvent.java:27-29 | returns the timestamp held in the event's contents |
| `Model.UserEvent.GetEventType` | src/main/java/de/consol/labs/aws/introtodynamodb/model/UserEvent.java:36-38 | returns the event type held in the event's contents |
| `Model.UserEvent.GetEventData` | src/main/java/de/consol/labs/aws/introtodynamodb/model/UserEvent.java:45-47 | returns the payload held in the event's contents |
| `Model.UserEvent.SetUserId` | src/main/java/de/consol/labs/aws/introtodynamodb/model/UserEvent.java:18-25 | assigns only the user id, returns the object itself; the getter then returns the value set |
| `Model.UserEvent.SetTimestamp` | src/main/java/de/consol/labs/aws/introtodynamodb/model/UserEvent.java:27-34 | assigns only the timestamp, returns the object itself; the getter then returns the value set |
| `Model.UserEvent.SetEventType` | src/main/java/de/consol/labs/aws/introtodynamodb/model/UserEvent.java:36-43 | assigns only the event type, returns the object itself; the getter then returns the value set |
| `Model.UserEvent.SetEventData` | src/main/java/de/consol/labs/aws/introtodynamodb/model/UserEvent.java:45-52 | assigns only the payload, returns the object itself; the getter then returns the value set |

## Left out

- HTTP routing, request parsing, logging and the table-name injection: glue around the core.
- The `DynamoDbClient` calls (`batchWriteItem`, `scan`, `query`) and the `PutRequest`/`WriteRequest` wrapping in `getWriteRequest`: network I/O through the store SDK. `SaveUserEvents` stops at the list of items handed to the write.
- `getUserEvents` and `getLastEvents`: their only logic beyond the store calls is applying `getUserEvent` to each returned item, which `Resource.GetUserEvent` models.
- `Instant.now()`: it is the parameter `now` (the clock reading in epoch milliseconds, assumed to fit a `long`).
- Floating-point numbers: a `Number` is an integer in the model. The rendering of doubles by `String.valueOf`, and their failure in `Long.parseLong`, are not modelled.
- `Decimal.ParseLong`: accepts only ASCII digits, while `Long.parseLong` also accepts other Unicode decimal digits.
- Map keys that are not strings, which `getItemForMap` and `getData` pass through `String.valueOf`: payload keys are strings in the model, so two keys can never collide after conversion.
- `Other` stands for any other payload object by its `String.valueOf` text. Lists and the other `AttributeValue` members (`l`, `ss`, `ns`, binary) are not modelled.
- `Codec.Decode`: the `NumberFormatException` message naming the bad text is not kept. The error is the same whichever entry fails first, so `HashMap` iteration order makes no difference.
- `Codec.DecodeMap`: it and `Resource.GetData` take a ghost `parent` attribute whose map is the argument. The parameter serves only the termination proof.
- `Resource.SaveUserEvents`: a null request body is not distinguished from an empty list; both are the empty sequence, a no-op.
- `Resource.SaveUserEvents`: a request body holding a null element (JSON `[null]`) makes `getItem` throw a `NullPointerException` at line 102; a `seq<UserEvent>` cannot hold null, so this case is not modelled.
- The `UserEvent` payload is a map value. The Java object keeps a reference to the caller's `Map`, so later changes through that alias are not modelled.
- `UserEvent.toString`: string formatting only.
