/**
 * The progress record form: its starting fields, the fields it fills in from a record being
 * edited (decoding the stored measurements first), how a change event is routed, and the payload
 * its submit handler builds, with the measurement fields cleaned before they are encoded.
 * The form is an object of named fields, as the component's state is: top-level fields
 * (`recordDate`, `weight`, `bodyFat`, `restingHeartRate`, `notes`, and whatever a change event
 * names) and the measurement fields.
 */
module ProgressForm {
  import opened Js
  import opened Progress

  /** The six measurement fields, which `handleChange` routes into `measurements`. */
  const MeasurementNames: seq<string> := ["chest", "waist", "hips", "biceps", "thighs", "calves"]

  /** `formData`: the top-level fields and the `measurements` sub-object. */
  datatype ProgressFormData = ProgressFormData(fields: map<string, FormValue>, measurements: map<string, FormValue>)

  /** Reads a field; an absent property is `undefined`, as falsy as the empty string. */
  function Field(m: map<string, FormValue>, name: string): FormValue {
    if name in m then m[name] else Text("")
  }

  /** The six measurement fields, all blank. */
  function BlankMeasurements(): (m: map<string, FormValue>)
    ensures m.Keys == set k | k in MeasurementNames
    ensures forall k :: k in m ==> m[k] == Text("")
  {
    map k | k in MeasurementNames :: Text("")
  }

  /** The form of a new record: dated `today` (its `YYYY-MM-DD` text), everything else blank. */
  function InitialForm(today: string): (f: ProgressFormData)
    ensures Field(f.fields, "recordDate") == Text(today)
    ensures forall k :: k in ["weight", "bodyFat", "restingHeartRate", "notes"] ==> Field(f.fields, k) == Text("")
    ensures f.measurements == BlankMeasurements()
  {
    ProgressFormData(
      map["recordDate" := Text(today), "weight" := Text(""), "bodyFat" := Text(""),
          "restingHeartRate" := Text(""), "notes" := Text("")],
      BlankMeasurements())
  }

  /**
   * The measurement decoding of `fetchProgressRecord`: non-empty text is decoded, and a failed
   * decode or a missing value gives an empty object; an object is kept. This is the detail
   * page's reading with "no measurements" turned into the empty object.
   */
  method DecodeMeasurements(stored: MeasurementsField, parse: string -> Option<MeasurementMap>) returns (measurements: MeasurementMap)
    ensures measurements == MeasurementsOf(stored, parse).GetOr(map[])
    ensures stored.Decoded? ==> measurements == stored.values
    ensures !HasMeasurements(stored) ==> measurements == map[]
  {
    if stored.Encoded? && stored.text != "" {
      var decoded := parse(stored.text);
      if decoded.Some? {
        measurements := decoded.value;
      } else {
        measurements := map[];
      }
    } else if !HasMeasurements(stored) {
      measurements := map[];
    } else {
      measurements := stored.values;
    }
  }

  /** `measurements.name || ''`. */
  function MeasurementField(measurements: MeasurementMap, name: string): (v: FormValue)
    ensures Truthy(v) <==> name in measurements && TruthyReal(measurements[name])
  {
    if name in measurements then ValueField(measurements[name]) else Text("")
  }

  /**
   * The form filled from a record: `recordDay` is the record's date as `YYYY-MM-DD` text; the
   * figures fall back to '' when missing or 0, and exactly the six measurement fields are read
   * from the decoded measurements.
   */
  function LoadForm(record: ProgressRecord, recordDay: string, measurements: MeasurementMap): (f: ProgressFormData)
    ensures Field(f.fields, "recordDate") == Text(recordDay)
    ensures Field(f.fields, "weight") == ValueField(record.weight)
    ensures Field(f.fields, "bodyFat") == ValueField(record.bodyFat)
    ensures Truthy(Field(f.fields, "restingHeartRate")) <==> IntOr(record.restingHeartRate, 0) != 0
    ensures IntOr(record.restingHeartRate, 0) != 0 ==> Field(f.fields, "restingHeartRate") == Number(record.restingHeartRate.value as real)
    ensures IntOr(record.restingHeartRate, 0) == 0 ==> Field(f.fields, "restingHeartRate") == Text("")
    ensures Field(f.fields, "notes") == Text(record.notes)
    ensures f.measurements.Keys == set k | k in MeasurementNames
    ensures forall k :: k in f.measurements ==> f.measurements[k] == MeasurementField(measurements, k)
  {
    var heartRate := if IntOr(record.restingHeartRate, 0) != 0 then Number(record.restingHeartRate.value as real) else Text("");
    ProgressFormData(
      map["recordDate" := Text(recordDay), "weight" := ValueField(record.weight), "bodyFat" := ValueField(record.bodyFat),
          "restingHeartRate" := heartRate, "notes" := Text(record.notes)],
      map k | k in MeasurementNames :: MeasurementField(measurements, k))
  }

  /** `handleChange`: a measurement name updates `measurements`, any other name the top level. */
  function HandleChange(form: ProgressFormData, name: string, value: string): (r: ProgressFormData)
    ensures name in MeasurementNames ==> Field(r.measurements, name) == Text(value)
    ensures name !in MeasurementNames ==> Field(r.fields, name) == Text(value)
  {
    if name !in MeasurementNames then form.(fields := form.fields[name := Text(value)])
    else form.(measurements := form.measurements[name := Text(value)])
  }

  /** A change event changes the one field it names, in the one place that field lives, and nothing else. */
  lemma ChangeTouchesOneField(form: ProgressFormData, name: string, value: string, other: string)
    requires other != name
    ensures Field(HandleChange(form, name, value).fields, other) == Field(form.fields, other)
    ensures Field(HandleChange(form, name, value).measurements, other) == Field(form.measurements, other)
    ensures name in MeasurementNames ==> HandleChange(form, name, value).fields == form.fields
    ensures name !in MeasurementNames ==> HandleChange(form, name, value).measurements == form.measurements
  {
  }

  /** A changed measurement keeps the form's measurement fields the six known ones. */
  lemma ChangeKeepsMeasurementKeys(form: ProgressFormData, name: string, value: string)
    requires form.measurements.Keys == set k | k in MeasurementNames
    ensures HandleChange(form, name, value).measurements.Keys == set k | k in MeasurementNames
  {
  }

  /** The cleaned measurements: the filled-in fields, each parsed to a number. */
  function Cleaned(measurements: map<string, FormValue>, parseFloat: string -> Option<real>): (c: MeasurementMap)
    ensures forall k :: k in c <==> k in measurements && Truthy(measurements[k])
    ensures forall k :: k in c ==> c[k] == ParseFloat(measurements[k], parseFloat)
  {
    map k | k in measurements && Truthy(measurements[k]) :: ParseFloat(measurements[k], parseFloat)
  }

  /** The `forEach` of `handleSubmit` that copies every filled-in measurement, parsed, into `cleanedMeasurements`. */
  method CleanMeasurements(measurements: map<string, FormValue>, parseFloat: string -> Option<real>) returns (cleaned: MeasurementMap)
    ensures cleaned == Cleaned(measurements, parseFloat)
  {
    cleaned := map[];
    var remaining := measurements.Keys;
    while remaining != {}
      invariant remaining <= measurements.Keys
      invariant forall k :: k in cleaned <==> k in measurements && k !in remaining && Truthy(measurements[k])
      invariant forall k :: k in cleaned ==> cleaned[k] == ParseFloat(measurements[k], parseFloat)
      decreases |remaining|
    {
      var key :| key in remaining;
      var value := measurements[key];
      if Truthy(value) {
        cleaned := cleaned[key := ParseFloat(value, parseFloat)];
      }
      remaining := remaining - {key};
    }
  }

  /** What `createProgressRecord` / `updateProgressRecord` receive; `measurements` is JSON text or null. */
  datatype ProgressPayload = ProgressPayload(
    recordDate: FormValue,
    weight: Option<real>,
    bodyFat: Option<real>,
    restingHeartRate: Option<int>,
    notes: FormValue,
    measurements: Option<string>)

  /**
   * The payload of `handleSubmit`: blank figures become null, the others are parsed (the heart
   * rate as an integer); the measurements go as the encoding of the cleaned ones, or null when no
   * measurement is filled in.
   */
  method BuildPayload(form: ProgressFormData, parseFloat: string -> Option<real>, parseInt: string -> Option<int>,
                      stringify: MeasurementMap -> string) returns (payload: ProgressPayload)
    ensures payload.recordDate == Field(form.fields, "recordDate") && payload.notes == Field(form.fields, "notes")
    ensures payload.weight == FloatOrNull(Field(form.fields, "weight"), parseFloat)
    ensures payload.bodyFat == FloatOrNull(Field(form.fields, "bodyFat"), parseFloat)
    ensures payload.restingHeartRate == IntOrNull(Field(form.fields, "restingHeartRate"), parseInt)
    ensures payload.measurements.None? <==> forall k :: k in form.measurements ==> !Truthy(form.measurements[k])
    ensures payload.measurements.Some? ==> payload.measurements.value == stringify(Cleaned(form.measurements, parseFloat))
  {
    var cleaned := CleanMeasurements(form.measurements, parseFloat);
    var encoded := if |cleaned| > 0 then Some(stringify(cleaned)) else None;
    assert |cleaned| == 0 <==> cleaned == map[];
    assert cleaned == map[] <==> forall k :: k !in cleaned;
    payload := ProgressPayload(
      Field(form.fields, "recordDate"),
      FloatOrNull(Field(form.fields, "weight"), parseFloat),
      FloatOrNull(Field(form.fields, "bodyFat"), parseFloat),
      IntOrNull(Field(form.fields, "restingHeartRate"), parseInt),
      Field(form.fields, "notes"),
      encoded);
  }

  /** The `measurements` property a saved payload comes back with. */
  function StoredField(encoded: Option<string>): MeasurementsField {
    if encoded.Some? then Encoded(encoded.value) else NoMeasurements
  }

  /**
   * Saved measurements read back: when the encoder and decoder round-trip, the detail page reads
   * the cleaned measurements of the form, or nothing when none was filled in.
   */
  lemma SavedMeasurementsReadBack(form: ProgressFormData, parseFloat: string -> Option<real>,
                                  stringify: MeasurementMap -> string, parse: string -> Option<MeasurementMap>,
                                  encoded: Option<string>)
    requires encoded.None? <==> forall k :: k in form.measurements ==> !Truthy(form.measurements[k])
    requires encoded.Some? ==> encoded.value == stringify(Cleaned(form.measurements, parseFloat))
    requires encoded.Some? ==> encoded.value != "" && parse(encoded.value) == Some(Cleaned(form.measurements, parseFloat))
    ensures encoded.Some? ==> MeasurementsOf(StoredField(encoded), parse) == Some(Cleaned(form.measurements, parseFloat))
    ensures encoded.None? ==> MeasurementsOf(StoredField(encoded), parse).None? && Cleaned(form.measurements, parseFloat) == map[]
  {
    if encoded.None? {
      var c := Cleaned(form.measurements, parseFloat);
      assert forall k :: k !in c;
    }
  }
}
