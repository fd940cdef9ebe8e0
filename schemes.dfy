/**
 * The field types of the analysis service's request models (schemes.py):
 * the optional vitals of a health record and the record itself, together
 * with Python's truthiness test on an optional number.
 */
module Schemes {
  import opened Wrappers

  /** `Vitals`: every reading is optional; heart rate and blood pressure are integers. */
  datatype Vitals = Vitals(
    heartRate: Option<int>,
    systolic: Option<int>,
    diastolic: Option<int>,
    oxygenSaturation: Option<real>,
    bmi: Option<real>)

  /** `HealthRecord`: the record date is kept as an opaque instant. */
  datatype HealthRecord = HealthRecord(
    recordDate: int,
    vitals: Vitals,
    bloodSugar: Option<real>,
    cholesterol: Option<real>)

  /** Vitals with no reading at all. */
  const NoVitals: Vitals := Vitals(None, None, None, None, None)

  /** Python truthiness of an optional integer: present and not zero. */
  predicate TruthyInt(x: Option<int>) {
    x.Some? && x.value != 0
  }

  /** Python truthiness of an optional float: present and not zero. */
  predicate TruthyReal(x: Option<real>) {
    x.Some? && x.value != 0.0
  }
}
