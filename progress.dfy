/**
 * The progress record as the progress pages receive it, and the one rule they share for reading
 * its body measurements: the server may hand them back as JSON text, as an already decoded
 * object, or not at all.
 */
module Progress {
  import opened Js

  /** Decoded body measurements: field name to value, `null` (None) when a value did not parse. */
  type MeasurementMap = map<string, Option<real>>

  /** The `measurements` property of a record: absent or null, JSON text, or an object. */
  datatype MeasurementsField = NoMeasurements | Encoded(text: string) | Decoded(values: MeasurementMap)

  /** A progress record; `recordDate` is milliseconds since the epoch, `photos` the image URLs. */
  datatype ProgressRecord = ProgressRecord(
    progressId: int,
    recordDate: int,
    weight: Option<real>,
    bodyFat: Option<real>,
    restingHeartRate: Option<int>,
    notes: string,
    measurements: MeasurementsField,
    photos: seq<string>)

  /** A record with a weight: `record.weight` is truthy. */
  predicate Weighed(x: ProgressRecord) {
    TruthyReal(x.weight)
  }

  /** Truthiness of the field: null and the empty string are falsy, any object is truthy. */
  predicate HasMeasurements(field: MeasurementsField) {
    match field
    case NoMeasurements => false
    case Encoded(text) => text != ""
    case Decoded(_) => true
  }

  /**
   * `getMeasurements` of the record detail, and the same steps in the latest-stats reading of the
   * progress page: null when falsy, text decoded by `parse` (None when `JSON.parse` throws),
   * an object passed through.
   */
  function MeasurementsOf(field: MeasurementsField, parse: string -> Option<MeasurementMap>): (r: Option<MeasurementMap>)
    ensures !HasMeasurements(field) ==> r.None?
    ensures field.Encoded? && field.text != "" ==> r == parse(field.text)
    ensures field.Decoded? ==> r == Some(field.values)
  {
    match field
    case NoMeasurements => None
    case Encoded(text) => if text != "" then parse(text) else None
    case Decoded(values) => Some(values)
  }

  /** The sort key of the pages that order records oldest first. */
  function RecordDate(r: ProgressRecord): int {
    r.recordDate
  }

  /** The sort key of the pages that order records newest first. */
  function NegRecordDate(r: ProgressRecord): int {
    -r.recordDate
  }
}
