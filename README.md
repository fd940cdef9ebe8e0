# Cardio Sentinel: risk scoring, trend detection and stored-record schemas in Dafny

This project models the decision logic and the stored document schemas of the
Cardio Sentinel health-monitoring backend, and proves properties about them:

- **Cardio risk scorer** (`calculate_cardio_risk`, module `RiskModel`). A fixed
  table of four rules runs over optional vitals: high resting heart rate (15),
  hypertension (25), low oxygen saturation (20) and obesity (15). Each rule that
  fires adds its weight and appends its message. The score is then capped at 100.
  A rule looks only at truthy readings, that is, readings that are present and
  non-zero. `CalculateCardioRisk` is the straight-line accumulation, proved equal
  to the rule table (`Fires`, `PresentFactors`). The lemmas prove the properties:
  bounds, strict thresholds, the truthiness guards, and order and distinctness of
  the messages.
- **Trend detector** (`detect_trends`, module `TrendModel`). `DetectTrends` is the
  loop that gathers the heart-rate and systolic series from the records. It skips
  missing and zero readings. Then each series of at least three points has its
  least-squares slope tested against 1. The slope is the exact closed form over
  integers, (nΣxy − ΣxΣy)/(nΣx² − (Σx)²). The denominator is proved positive from
  two points on. The fit is proved to return the slope b exactly on the points
  of a line a + b·x.
- **Audit log and feedback schemas** (`auditLogSchema`, `feedbackSchema`, modules
  `AuditLogSchema` and `FeedbackSchema`). Each schema has a document type with
  every path optional, a stored-entry type, a `Valid` predicate, and a `Create`
  function. `Create` fills the defaulted time path from a `now` parameter and
  returns either the entry or a `ValidationError`. `ToDoc` maps a stored entry
  back to a document, and `Create` is proved to round-trip through it.

Shared modules: `Wrappers` has `Option` and `Result`. `Schemes` has the field
types of the analysis service's request models, plus Python truthiness on
optional numbers. `SchemaTypes` has the opaque `ObjectId`, the `Time` instant,
the schema-less `Mixed` value and `ValidationError`.

Two points about the schemas that are easy to misread:

- Feedback.js marks no path required, not even `doctor` or `healthRecord`, so
  the model accepts feedback without them (`FeedbackSchema.EmptyFeedbackAccepted`).
- AuditLog.js keeps a supplied `timestamp` whatever its value, even one earlier
  than the creation instant; only an omitted one becomes the creation instant
  (`AuditLogSchema.TimestampDefault`).

## Model

| member | source | states |
|---|---|---|
| RiskModel.CalculateCardioRisk | risk_model.py:3-40 | the returned score and factor list are the rule table's weight sum and messages; the score lies in 0..75, so the cap at 100 never changes it; the score is 0 exactly when the factor list is empty |
| RiskModel.Fires | risk_model.py:17-33 | the rule table: heart rate truthy and > 100; systolic and diastolic both truthy and systolic > 140 or diastolic > 90; SpO2 truthy and < 94; BMI truthy and > 30 |
| RiskModel.PresentFactorsUnfolded | risk_model.py:17-33 | the present factors are the firing rules, taken in the order heart rate, hypertension, oxygen, obesity |
| RiskModel.ScoreIsSumOfWeights | risk_model.py:17-33 | the score is 15·[HR rule] + 25·[hypertension rule] + 20·[oxygen rule] + 15·[obesity rule] |
| RiskModel.ScoreBounds | risk_model.py:8-35 | the uncapped score lies between 0 and 75, below the cap of 100 |
| RiskModel.ScoreIsZeroIffNoFactors | risk_model.py:8-33 | the score is 0 if and only if no factor message is reported |
| RiskModel.FactorsInRuleOrder | risk_model.py:17-33 | at most four messages, no duplicates, and the factors appear in strictly increasing rule order |
| RiskModel.FactorReportedIffFires | risk_model.py:17-33 | a factor's message is in the list if and only if its rule fires |
| RiskModel.HeartRateRule | risk_model.py:17-19 | the heart-rate message appears iff a heart rate is present and strictly above 100 |
| RiskModel.HypertensionRule | risk_model.py:21-24 | the hypertension message appears iff systolic and diastolic are both present and non-zero and systolic > 140 or diastolic > 90 |
| RiskModel.OxygenRule | risk_model.py:26-28 | the low-oxygen message appears iff SpO2 is present, non-zero and strictly below 94 |
| RiskModel.ObesityRule | risk_model.py:30-33 | the obesity message appears iff BMI is present and strictly above 30 |
| RiskModel.ThresholdsAreStrict | risk_model.py:17-33 | readings exactly at every threshold (HR 100, 140/90, SpO2 94, BMI 30) give score 0 and no factors |
| RiskModel.SystolicAloneIsNotHypertension | risk_model.py:21-24 | systolic 180 with diastolic missing reports no hypertension |
| RiskModel.ZeroOxygenIsNotLow | risk_model.py:26-28 | an SpO2 of 0 is not reported as low oxygen |
| RiskModel.NoVitalsNoRisk | risk_model.py:8-40 | with every vital missing the score is 0 and the factor list is empty |
| TrendModel.DetectTrends | trend_model.py:3-28 | the loop's two lists are the heart-rate and systolic series of the records; the result is the trend messages of those series, at most two |
| TrendModel.Series | trend_model.py:10-14 | a series is no longer than the record list and holds no zero |
| TrendModel.SeriesAppend | trend_model.py:10-14 | the series of a concatenation is the concatenation of the series, so record order is kept |
| TrendModel.SeriesMembership | trend_model.py:10-14 | a value is in a series iff some record holds it as a present, non-zero reading of that channel |
| TrendModel.SkippedReadingsContributeNothing | trend_model.py:10-14 | records whose reading is missing or zero give an empty series |
| TrendModel.SeriesDependsOnlyOnReadings | trend_model.py:10-14 | two record lists with the same readings on a channel have the same series for it |
| TrendModel.ConstantReadingsSeries | trend_model.py:10-14 | records all holding the same non-zero reading give the constant series of that length |
| TrendModel.Slope | trend_model.py:19-26 | the exact least-squares slope (nΣxy − ΣxΣy)/(nΣx² − (Σx)²) over x = 0..n−1, defined from two points on; it exceeds 1 iff the numerator exceeds the denominator |
| TrendModel.Trends | trend_model.py:16-28 | the reference result: the heart-rate message if that series rises, then the blood-pressure message if the systolic series rises; never more than two messages |
| TrendModel.DenominatorPositive | trend_model.py:19 | the least-squares denominator nΣx² − (Σx)² is positive from two points on, so the slope is defined |
| TrendModel.SlopeAboveOneIff | trend_model.py:19-20 | the slope exceeds 1 iff the numerator exceeds the denominator |
| TrendModel.LineSlope | trend_model.py:19 | on the points of a line a + b·x the fitted slope is exactly b |
| TrendModel.LineRisingIff | trend_model.py:18-20 | a line of three or more points is a rising trend iff b > 1 |
| TrendModel.ConstantSeriesNeverRises | trend_model.py:19-25 | a constant series never passes the slope test |
| TrendModel.TrendsShape | trend_model.py:16-28 | at most two messages, heart rate before blood pressure; each message appears iff its series rises |
| TrendModel.ShortSeriesNoMessage | trend_model.py:18-26 | a series of fewer than three retained points never yields its message |
| TrendModel.NoRecordsNoTrends | trend_model.py:16-28 | an empty record list gives an empty result |
| TrendModel.HeartRateMessageDependsOnlyOnHeartRate | trend_model.py:10-21 | the heart-rate message is the same for record lists with the same heart-rate readings |
| TrendModel.BloodPressureMessageDependsOnlyOnSystolic | trend_model.py:10-26 | the blood-pressure message is the same for record lists with the same systolic readings |
| TrendModel.TrendsIgnoreOtherFields | trend_model.py:10-26 | diastolic and every other field are ignored: lists agreeing on heart rate and systolic give the same trends |
| TrendModel.SteadyHeartRateNoMessage | trend_model.py:10-21 | records with a constant non-zero heart rate never yield the heart-rate message |
| AuditLogSchema.Create | AuditLog.js:3-21 | accepted iff `action` is present and non-empty, otherwise a Required("action") error; an accepted entry is valid and keeps every supplied path, with `timestamp` defaulted to now |
| AuditLogSchema.Valid | AuditLog.js:8-11 | the `required: true` rule on `action`: a stored entry's action is a non-empty string |
| AuditLogSchema.CreateToDocRoundTrip | AuditLog.js:3-21 | a valid stored entry, turned back into a document and constructed again, is unchanged whatever the clock |
| AuditLogSchema.MissingActionRejected | AuditLog.js:8-11 | a missing or empty `action` is refused with Required("action") |
| AuditLogSchema.OnlyActionIsRequired | AuditLog.js:4-20 | with a non-empty `action`, every other path may be absent |
| AuditLogSchema.TimestampDefault | AuditLog.js:16-19 | an omitted `timestamp` becomes the creation instant; a supplied one is kept |
| AuditLogSchema.SuppliedPathsPreserved | AuditLog.js:3-21 | `action`, `user`, `resourceType`, `resourceId`, `ipAddress`, `userAgent` and `metadata` are stored verbatim |
| AuditLogSchema.MetadataUnconstrained | AuditLog.js:20 | replacing `metadata` with any value never changes acceptance |
| FeedbackSchema.Create | Feedback.js:3-25 | accepted iff `usefulness` is absent or one of useful, neutral, incorrect, otherwise a NotInEnum error naming the value; an accepted entry is valid and keeps every supplied path, with `createdAt` defaulted to now |
| FeedbackSchema.Valid | Feedback.js:16-19 | the enum rule: `usefulness` is absent or one of useful, neutral, incorrect |
| FeedbackSchema.CreateToDocRoundTrip | Feedback.js:3-25 | a valid stored entry, turned back into a document and constructed again, is unchanged whatever the clock |
| FeedbackSchema.UnknownUsefulnessRejected | Feedback.js:16-19 | a supplied rating outside the enum is refused with NotInEnum("usefulness", value) |
| FeedbackSchema.EmptyFeedbackAccepted | Feedback.js:4-24 | with every path omitted the entry is accepted: no reference and no rating is required |
| FeedbackSchema.ReferencesUnchecked | Feedback.js:4-15 | acceptance never depends on which doctor, health record or alert is referenced, or whether any is |
| FeedbackSchema.AnyComment | Feedback.js:20 | any string, the empty one included, is accepted as `comments` and kept verbatim |
| FeedbackSchema.CreatedAtDefault | Feedback.js:21-24 | an omitted `createdAt` becomes the creation instant; a supplied one is kept |

## Left out

- server.js is not part of this model. It is framework wiring: body parsing, CORS, security headers, the rate limiter, route mounting, the `/health` echo of the wall clock, `listen`, and the shutdown on an unhandled rejection.
- TrendModel.Slope: the floating-point least-squares fit (`np.polyfit`) is replaced by the exact rational slope. Floating-point rounding is not modelled; it can change the outcome near a slope of 1, or for readings above 2^53, which float64 cannot all represent exactly.
- The numpy import in risk_model.py is unused and not modelled.
- schemes.py contributes field types only. Pydantic's coercion of request data, for example a string "120" becoming the integer 120, is not modelled.
- RiskModel.CalculateCardioRisk takes typed vitals (integers for heart rate and pressures, reals for SpO2 and BMI). The source reads an untyped dictionary, so values of other Python types, including `True`/`False`, are not modelled. NaN and infinities are not modelled either: a NaN SpO2 is truthy but fails `< 94`, and an infinite BMI fires the obesity rule.
- Persistence and model registration (`mongoose.model`) are left out. So are insertion into the store, assignment of document identifiers, and lookups.
- The creation clock (`Date.now`) is not modelled: the creation instant is the parameter `now`.
- Mongoose's casting of supplied values to a path's type is left out. This covers strings to ObjectId, numbers to String and values to Date. The document types already carry the cast types.
- A path supplied as `null` is not distinguished from an undefined one. Mongoose applies a default only to an undefined path, so the model treats only an omitted time path as "not supplied".
- The `ref` targets (`User`, `HealthRecord`, `Alert`) only name models for population and are not modelled: references are opaque identifiers.
