/** The part of the cloud document store the app touches: documents of the
    "parkingHistory" collection, their typed field values, the typed accessors used to
    read them, and the server timestamp placeholder resolved when a write lands. */
module Firestore {
  import opened Kotlin

  /** The nanoseconds within a second, as a store timestamp keeps them. */
  type Nanos = n: int | 0 <= n < 1_000_000_000

  /** A store timestamp: seconds since the epoch and the nanoseconds within it. */
  datatype Timestamp = Timestamp(seconds: int, nanoseconds: Nanos)

  /** A field value. `ServerTimestamp` is the placeholder a client writes; the server
      stores its own clock in its place. Every other value type is `OtherValue`. */
  datatype FieldValue =
    | StringValue(text: string)
    | TimestampValue(timestamp: Timestamp)
    | ServerTimestamp
    | OtherValue

  /** A stored document: its id (not a field) and its fields by name. */
  datatype Document = Document(id: string, fields: map<string, FieldValue>)

  /** `DocumentSnapshot.getString(key)`, a stand-in for the library's getter: the string
      stored under `key`, or null. */
  function GetString(doc: Document, key: string): Option<string> {
    if key in doc.fields && doc.fields[key].StringValue? then Some(doc.fields[key].text) else None
  }

  /** `DocumentSnapshot.getTimestamp(key)`, a stand-in for the library's getter: the
      timestamp stored under `key`, or null. */
  function GetTimestamp(doc: Document, key: string): Option<Timestamp> {
    if key in doc.fields && doc.fields[key].TimestampValue? then Some(doc.fields[key].timestamp) else None
  }

  /** `Timestamp.toDate().time`: `seconds * 1000 + nanoseconds / 1_000_000` in `Long`.
      The result is the whole milliseconds of the instant, and the division agrees with
      the JVM's truncating one because the nanoseconds are never negative. */
  function EpochMillis(t: Timestamp): (millis: int)
    ensures millis == t.seconds * 1000 + Quot(t.nanoseconds, 1_000_000)
    ensures millis * 1_000_000 <= t.seconds * 1_000_000_000 + t.nanoseconds < millis * 1_000_000 + 1_000_000
  {
    t.seconds * 1000 + t.nanoseconds / 1_000_000
  }

  /** `t` is no later than `u`. */
  predicate NotAfter(t: Timestamp, u: Timestamp) {
    t.seconds < u.seconds || (t.seconds == u.seconds && t.nanoseconds <= u.nanoseconds)
  }

  /** Converting to milliseconds keeps the order of timestamps. */
  lemma EpochMillisMonotone(t: Timestamp, u: Timestamp)
    requires NotAfter(t, u)
    ensures EpochMillis(t) <= EpochMillis(u)
  {
    var nt := t.seconds * 1_000_000_000 + t.nanoseconds;
    var nu := u.seconds * 1_000_000_000 + u.nanoseconds;
    assert nt <= nu;
    assert EpochMillis(t) * 1_000_000 <= nt <= nu < EpochMillis(u) * 1_000_000 + 1_000_000;
  }

  /** The fields as the server stores them when a write lands at time `now`: each
      server timestamp placeholder becomes `now`, every other field is kept. */
  function ResolveServerTimestamps(fields: map<string, FieldValue>, now: Timestamp): (stored: map<string, FieldValue>)
    ensures stored.Keys == fields.Keys
    ensures forall k :: k in stored ==> stored[k] != ServerTimestamp
  {
    map k | k in fields :: if fields[k] == ServerTimestamp then TimestampValue(now) else fields[k]
  }
}
