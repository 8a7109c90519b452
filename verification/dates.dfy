/** Dates as the editor forms handle them: a picked date is an instant, it is
    stored as text, and stored text is read back as an instant only to be
    compared with another one. */
module Dates {
  import opened Wrappers

  /** A point in time, as a JavaScript `Date` holds it. The model only orders
      instants; it never looks at their calendar fields. */
  type Instant = int

  /** The two `Date` conversions the forms rely on: `show` is `toISOString`,
      which turns a picked date into the text that is stored, and `parse` is
      `new Date(text)`; None stands for an Invalid Date, against which every
      comparison is false. */
  datatype DateCodec = DateCodec(show: Instant -> string, parse: string -> Option<Instant>)

  /** `new Date(text) < d`. */
  predicate StoredBefore(codec: DateCodec, text: string, d: Instant) {
    match codec.parse(text)
    case Some(t) => t < d
    case None => false
  }

  /** `new Date(text) > d`. */
  predicate StoredAfter(codec: DateCodec, text: string, d: Instant) {
    match codec.parse(text)
    case Some(t) => t > d
    case None => false
  }

  /** Reading back the text stored for `d` gives `d` again, as it does for
      every valid `Date` in JavaScript. */
  predicate RoundTrips(codec: DateCodec, d: Instant) {
    codec.parse(codec.show(d)) == Some(d)
  }

  /** A start and an end, either possibly empty, are in order: when both are
      given and readable, the end does not come before the start. */
  predicate InOrder(codec: DateCodec, start: string, end: string) {
    start == "" || end == "" ||
    match (codec.parse(start), codec.parse(end))
    case (Some(s), Some(e)) => s <= e
    case _ => true
  }
}
