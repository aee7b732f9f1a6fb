/**
 * Aware datetimes as abstract, totally ordered instants, and the three
 * conversions the code uses on them: `datetime.fromisoformat`,
 * `datetime.isoformat()` and `str(datetime)` (an ISO form with a space as
 * separator). The conversions belong to Python's library and are passed in
 * as functions; `Valid` states the round trips the library guarantees.
 */
module DateTimes {

  import opened Wrappers

  /** The UTC instant of an aware datetime, on an integer scale; only its order and equality matter. */
  type Time = int

  /** `EPOCH` from the settings module, 1970-01-01T00:00:00+00:00. */
  const Epoch: Time := 0

  datatype Codec = Codec(
    fromIsoFormat: string -> Option<Time>,
    isoFormat: Time -> string,
    str: Time -> string)
  {
    /** Both spellings of an instant parse back to that instant. */
    ghost predicate Valid() {
      && (forall t :: fromIsoFormat(isoFormat(t)) == Some(t))
      && (forall t :: fromIsoFormat(str(t)) == Some(t))
    }
  }
}
