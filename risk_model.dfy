/**
 * The rule- and score-based cardio risk assessment (`calculate_cardio_risk`).
 *
 * Four fixed rules are tried in a fixed order; each one that fires adds its
 * weight to the score and its message to the factor list. A rule fires only
 * when the readings it looks at are truthy, so a missing or zero reading never
 * counts. The score is capped at 100, a cap the weights can never reach.
 */
module RiskModel {
  import opened Wrappers
  import opened Schemes

  /** The risk factors, one per rule. */
  datatype Factor = HighHeartRate | Hypertension | LowOxygen | Obesity

  /** The order in which the rules are tried, and so the order of the messages. */
  const RuleOrder: seq<Factor> := [HighHeartRate, Hypertension, LowOxygen, Obesity]

  /** The ceiling applied to the score. */
  const ScoreCap: int := 100

  const HighHeartRateMessage: string := "High resting heart rate"
  const HypertensionMessage: string := "Hypertension detected"
  const LowOxygenMessage: string := "Low oxygen saturation"
  const ObesityMessage: string := "Obesity risk"

  /** The result dictionary: `riskScore` and `riskFactors`. */
  datatype RiskAssessment = RiskAssessment(riskScore: int, riskFactors: seq<string>)

  /** The weight each rule adds to the score. */
  function Weight(f: Factor): nat {
    match f
    case HighHeartRate => 15
    case Hypertension => 25
    case LowOxygen => 20
    case Obesity => 15
  }

  /** The message each rule appends. */
  function Message(f: Factor): string {
    match f
    case HighHeartRate => HighHeartRateMessage
    case Hypertension => HypertensionMessage
    case LowOxygen => LowOxygenMessage
    case Obesity => ObesityMessage
  }

  /** The position of a rule in `RuleOrder`. */
  function Rank(f: Factor): (k: nat)
    ensures k < |RuleOrder| && RuleOrder[k] == f
  {
    match f
    case HighHeartRate => 0
    case Hypertension => 1
    case LowOxygen => 2
    case Obesity => 3
  }

  /** The rule table: when each factor is present in the given vitals. */
  predicate Fires(v: Vitals, f: Factor) {
    match f
    case HighHeartRate => TruthyInt(v.heartRate) && v.heartRate.value > 100
    case Hypertension =>
      TruthyInt(v.systolic) && TruthyInt(v.diastolic)
      && (v.systolic.value > 140 || v.diastolic.value > 90)
    case LowOxygen => TruthyReal(v.oxygenSaturation) && v.oxygenSaturation.value < 94.0
    case Obesity => TruthyReal(v.bmi) && v.bmi.value > 30.0
  }

  /** The factors of `fs` that fire for `v`, in the order of `fs`. */
  function Select(v: Vitals, fs: seq<Factor>): seq<Factor> {
    if fs == [] then []
    else (if Fires(v, fs[0]) then [fs[0]] else []) + Select(v, fs[1..])
  }

  function TotalWeight(fs: seq<Factor>): int {
    if fs == [] then 0 else Weight(fs[0]) + TotalWeight(fs[1..])
  }

  function Messages(fs: seq<Factor>): (ms: seq<string>)
    ensures |ms| == |fs|
    ensures forall i :: 0 <= i < |fs| ==> ms[i] == Message(fs[i])
  {
    if fs == [] then [] else [Message(fs[0])] + Messages(fs[1..])
  }

  /** The factors present in `v`, in rule order. */
  function PresentFactors(v: Vitals): seq<Factor> {
    Select(v, RuleOrder)
  }

  /** The score as the sum of the weights of the present factors (before any cap). */
  function RiskScore(v: Vitals): int {
    TotalWeight(PresentFactors(v))
  }

  /** The factor messages of the present factors, in rule order. */
  function RiskFactors(v: Vitals): seq<string> {
    Messages(PresentFactors(v))
  }

  /**
   * `calculate_cardio_risk`: accumulates the score and the factor list rule by
   * rule, then caps the score at 100. The result is the rule table's verdict,
   * and the cap never changes it.
   */
  method CalculateCardioRisk(vitals: Vitals) returns (result: RiskAssessment)
    ensures result.riskScore == RiskScore(vitals)
    ensures result.riskFactors == RiskFactors(vitals)
    ensures 0 <= result.riskScore <= 75
    ensures result.riskScore == 0 <==> result.riskFactors == []
  {
    var risk := 0;
    var factors: seq<string> := [];

    var hr := vitals.heartRate;
    var sys := vitals.systolic;
    var dia := vitals.diastolic;
    var spo2 := vitals.oxygenSaturation;
    var bmi := vitals.bmi;

    if TruthyInt(hr) && hr.value > 100 {
      risk := risk + 15;
      factors := factors + [HighHeartRateMessage];
    }

    if TruthyInt(sys) && TruthyInt(dia) {
      if sys.value > 140 || dia.value > 90 {
        risk := risk + 25;
        factors := factors + [HypertensionMessage];
      }
    }

    if TruthyReal(spo2) && spo2.value < 94.0 {
      risk := risk + 20;
      factors := factors + [LowOxygenMessage];
    }

    if TruthyReal(bmi) {
      if bmi.value > 30.0 {
        risk := risk + 15;
        factors := factors + [ObesityMessage];
      }
    }

    PresentFactorsUnfolded(vitals);
    ScoreIsSumOfWeights(vitals);
    ScoreBounds(vitals);
    ScoreIsZeroIffNoFactors(vitals);
    risk := if risk < ScoreCap then risk else ScoreCap;

    result := RiskAssessment(risk, factors);
  }

  /** The present factors are the firing rules taken one by one in rule order. */
  lemma PresentFactorsUnfolded(v: Vitals)
    ensures PresentFactors(v)
         == (if Fires(v, HighHeartRate) then [HighHeartRate] else [])
          + (if Fires(v, Hypertension) then [Hypertension] else [])
          + (if Fires(v, LowOxygen) then [LowOxygen] else [])
          + (if Fires(v, Obesity) then [Obesity] else [])
  {
    var s0 := if Fires(v, HighHeartRate) then [HighHeartRate] else [];
    var s1 := if Fires(v, Hypertension) then [Hypertension] else [];
    var s2 := if Fires(v, LowOxygen) then [LowOxygen] else [];
    var s3 := if Fires(v, Obesity) then [Obesity] else [];
    assert Select(v, [Obesity]) == s3 by {
      assert [Obesity][1..] == [];
    }
    assert Select(v, [LowOxygen, Obesity]) == s2 + s3 by {
      assert [LowOxygen, Obesity][1..] == [Obesity];
    }
    assert Select(v, [Hypertension, LowOxygen, Obesity]) == s1 + (s2 + s3) by {
      assert [Hypertension, LowOxygen, Obesity][1..] == [LowOxygen, Obesity];
    }
    assert Select(v, RuleOrder) == s0 + (s1 + (s2 + s3)) by {
      assert RuleOrder[1..] == [Hypertension, LowOxygen, Obesity];
    }
    assert s0 + (s1 + (s2 + s3)) == s0 + s1 + s2 + s3;
  }

  /** The score is the sum of the weights of the rules that fire. */
  lemma ScoreIsSumOfWeights(v: Vitals)
    ensures RiskScore(v)
         == (if Fires(v, HighHeartRate) then 15 else 0)
          + (if Fires(v, Hypertension) then 25 else 0)
          + (if Fires(v, LowOxygen) then 20 else 0)
          + (if Fires(v, Obesity) then 15 else 0)
  {
    PresentFactorsUnfolded(v);
    TotalWeightAppend(if Fires(v, HighHeartRate) then [HighHeartRate] else [],
                      (if Fires(v, Hypertension) then [Hypertension] else [])
                      + (if Fires(v, LowOxygen) then [LowOxygen] else [])
                      + (if Fires(v, Obesity) then [Obesity] else []));
    TotalWeightAppend((if Fires(v, Hypertension) then [Hypertension] else [])
                      + (if Fires(v, LowOxygen) then [LowOxygen] else []),
                      if Fires(v, Obesity) then [Obesity] else []);
    TotalWeightAppend(if Fires(v, Hypertension) then [Hypertension] else [],
                      if Fires(v, LowOxygen) then [LowOxygen] else []);
    assert (if Fires(v, HighHeartRate) then [HighHeartRate] else [])
          + (if Fires(v, Hypertension) then [Hypertension] else [])
          + (if Fires(v, LowOxygen) then [LowOxygen] else [])
          + (if Fires(v, Obesity) then [Obesity] else [])
        == (if Fires(v, HighHeartRate) then [HighHeartRate] else [])
          + ((if Fires(v, Hypertension) then [Hypertension] else [])
             + (if Fires(v, LowOxygen) then [LowOxygen] else [])
             + (if Fires(v, Obesity) then [Obesity] else []));
  }

  lemma {:induction false} TotalWeightAppend(a: seq<Factor>, b: seq<Factor>)
    ensures TotalWeight(a + b) == TotalWeight(a) + TotalWeight(b)
  {
    if a != [] {
      assert (a + b)[0] == a[0];
      assert (a + b)[1..] == a[1..] + b;
      TotalWeightAppend(a[1..], b);
    } else {
      assert a + b == b;
    }
  }

  /** Selecting rules never adds weight: the selected weight lies between 0 and the total. */
  lemma {:induction false} SelectedWeightBounds(v: Vitals, fs: seq<Factor>)
    ensures 0 <= TotalWeight(Select(v, fs)) <= TotalWeight(fs)
  {
    if fs != [] {
      var head := if Fires(v, fs[0]) then [fs[0]] else [];
      SelectedWeightBounds(v, fs[1..]);
      assert 0 <= TotalWeight(head) <= Weight(fs[0]) by {
        assert [fs[0]][1..] == [];
        assert TotalWeight([fs[0]]) == Weight(fs[0]) + TotalWeight([]);
      }
      assert TotalWeight(fs) == Weight(fs[0]) + TotalWeight(fs[1..]);
      assert Select(v, fs) == head + Select(v, fs[1..]);
      TotalWeightAppend(head, Select(v, fs[1..]));
    }
  }

  /** The score always lies in 0..75, so the cap at 100 can never take effect. */
  lemma ScoreBounds(v: Vitals)
    ensures 0 <= RiskScore(v) <= 75 < ScoreCap
  {
    SelectedWeightBounds(v, RuleOrder);
    assert TotalWeight(RuleOrder) == 75 by {
      assert RuleOrder[1..] == [Hypertension, LowOxygen, Obesity];
      assert RuleOrder[1..][1..] == [LowOxygen, Obesity];
      assert RuleOrder[1..][1..][1..] == [Obesity];
    }
  }

  /** Every rule weighs something, so a list of factors weighs 0 only when it is empty. */
  lemma {:induction false} TotalWeightZeroIffEmpty(fs: seq<Factor>)
    ensures TotalWeight(fs) == 0 <==> fs == []
    ensures TotalWeight(fs) >= 0
  {
    if fs != [] {
      TotalWeightZeroIffEmpty(fs[1..]);
    }
  }

  /** The score is 0 exactly when no factor is reported. */
  lemma ScoreIsZeroIffNoFactors(v: Vitals)
    ensures RiskScore(v) == 0 <==> RiskFactors(v) == []
  {
    TotalWeightZeroIffEmpty(PresentFactors(v));
  }

  /** A factor is selected exactly when it is in the list and fires. */
  lemma {:induction false} SelectMembership(v: Vitals, fs: seq<Factor>, f: Factor)
    ensures f in Select(v, fs) <==> f in fs && Fires(v, f)
  {
    if fs != [] {
      SelectMembership(v, fs[1..], f);
      assert fs == [fs[0]] + fs[1..];
    }
  }

  /** The ranks of a list of factors strictly increase. */
  ghost predicate Ordered(fs: seq<Factor>) {
    forall i, j :: 0 <= i < j < |fs| ==> Rank(fs[i]) < Rank(fs[j])
  }

  /** Whatever is selected from a list comes from the list, so it outranks what all of the list outranks. */
  lemma SelectedOutrank(v: Vitals, fs: seq<Factor>, r: nat)
    requires forall k :: 0 <= k < |fs| ==> r < Rank(fs[k])
    ensures forall k :: 0 <= k < |Select(v, fs)| ==> r < Rank(Select(v, fs)[k])
  {
    forall k | 0 <= k < |Select(v, fs)| ensures r < Rank(Select(v, fs)[k]) {
      var g := Select(v, fs)[k];
      SelectMembership(v, fs, g);
      var m :| 0 <= m < |fs| && fs[m] == g;
    }
  }

  /** Selecting keeps the relative order of a list whose ranks strictly increase. */
  lemma {:induction false} SelectKeepsOrder(v: Vitals, fs: seq<Factor>)
    requires Ordered(fs)
    ensures Ordered(Select(v, fs))
  {
    if fs != [] {
      var tail := fs[1..];
      assert Ordered(tail) by {
        forall i, j | 0 <= i < j < |tail| ensures Rank(tail[i]) < Rank(tail[j]) {
          assert tail[i] == fs[i + 1] && tail[j] == fs[j + 1];
        }
      }
      SelectKeepsOrder(v, tail);
      var rest := Select(v, tail);
      if Fires(v, fs[0]) {
        forall k | 0 <= k < |tail| ensures Rank(fs[0]) < Rank(tail[k]) {
          assert tail[k] == fs[k + 1];
        }
        SelectedOutrank(v, tail, Rank(fs[0]));
        var s := [fs[0]] + rest;
        assert Select(v, fs) == s;
        forall i, j | 0 <= i < j < |s| ensures Rank(s[i]) < Rank(s[j]) {
          assert s[j] == rest[j - 1];
          if i > 0 {
            assert s[i] == rest[i - 1];
          }
        }
      } else {
        assert Select(v, fs) == rest;
      }
    }
  }

  /**
   * The reported factors appear in rule order (heart rate, hypertension,
   * oxygen, obesity), at most once each, so there are at most four.
   */
  lemma FactorsInRuleOrder(v: Vitals)
    ensures |RiskFactors(v)| <= 4
    ensures forall i, j :: 0 <= i < j < |PresentFactors(v)| ==>
              Rank(PresentFactors(v)[i]) < Rank(PresentFactors(v)[j])
    ensures forall i, j :: 0 <= i < j < |RiskFactors(v)| ==> RiskFactors(v)[i] != RiskFactors(v)[j]
  {
    assert Ordered(RuleOrder);
    SelectKeepsOrder(v, RuleOrder);
    var fs := PresentFactors(v);
    assert |fs| <= 4 by {
      PresentFactorsUnfolded(v);
    }
    forall i, j | 0 <= i < j < |RiskFactors(v)| ensures RiskFactors(v)[i] != RiskFactors(v)[j] {
      assert Rank(fs[i]) < Rank(fs[j]);
    }
  }

  /** A factor's message is reported exactly when its rule fires. */
  lemma FactorReportedIffFires(v: Vitals, f: Factor)
    ensures Message(f) in RiskFactors(v) <==> Fires(v, f)
  {
    var fs := PresentFactors(v);
    SelectMembership(v, RuleOrder, f);
    assert f in RuleOrder by {
      assert RuleOrder[Rank(f)] == f;
    }
    if Message(f) in RiskFactors(v) {
      var k :| 0 <= k < |fs| && RiskFactors(v)[k] == Message(f);
      assert Message(fs[k]) == Message(f);
      assert fs[k] == f;
    }
    if Fires(v, f) {
      var k :| 0 <= k < |fs| && fs[k] == f;
      assert RiskFactors(v)[k] == Message(f);
    }
  }

  /** Heart rate counts only strictly above 100; a missing reading never counts. */
  lemma HeartRateRule(v: Vitals)
    ensures HighHeartRateMessage in RiskFactors(v) <==> v.heartRate.Some? && v.heartRate.value > 100
  {
    FactorReportedIffFires(v, HighHeartRate);
  }

  /**
   * Hypertension needs both pressures present and non-zero, and then systolic
   * strictly above 140 or diastolic strictly above 90.
   */
  lemma HypertensionRule(v: Vitals)
    ensures HypertensionMessage in RiskFactors(v)
        <==> (v.systolic.Some? && v.systolic.value != 0
              && v.diastolic.Some? && v.diastolic.value != 0
              && (v.systolic.value > 140 || v.diastolic.value > 90))
  {
    FactorReportedIffFires(v, Hypertension);
  }

  /** Oxygen saturation counts strictly below 94, except a zero or missing reading. */
  lemma OxygenRule(v: Vitals)
    ensures LowOxygenMessage in RiskFactors(v)
        <==> (v.oxygenSaturation.Some? && v.oxygenSaturation.value != 0.0
              && v.oxygenSaturation.value < 94.0)
  {
    FactorReportedIffFires(v, LowOxygen);
  }

  /** BMI counts only strictly above 30. */
  lemma ObesityRule(v: Vitals)
    ensures ObesityMessage in RiskFactors(v) <==> v.bmi.Some? && v.bmi.value > 30.0
  {
    FactorReportedIffFires(v, Obesity);
  }

  /** Readings exactly at a threshold add nothing. */
  lemma ThresholdsAreStrict(v: Vitals)
    requires v.heartRate == Some(100) && v.systolic == Some(140) && v.diastolic == Some(90)
    requires v.oxygenSaturation == Some(94.0) && v.bmi == Some(30.0)
    ensures RiskScore(v) == 0 && RiskFactors(v) == []
  {
    PresentFactorsUnfolded(v);
  }

  /** A systolic reading of 180 with no diastolic reading is not hypertension. */
  lemma SystolicAloneIsNotHypertension(v: Vitals)
    requires v.systolic == Some(180) && v.diastolic.None?
    ensures HypertensionMessage !in RiskFactors(v)
  {
    HypertensionRule(v);
  }

  /** An oxygen saturation of 0 is not reported as low, though 0 < 94. */
  lemma ZeroOxygenIsNotLow(v: Vitals)
    requires v.oxygenSaturation == Some(0.0)
    ensures LowOxygenMessage !in RiskFactors(v)
  {
    OxygenRule(v);
  }

  /** With every vital missing the score is 0 and no factor is reported. */
  lemma NoVitalsNoRisk()
    ensures RiskScore(NoVitals) == 0 && RiskFactors(NoVitals) == []
  {
    PresentFactorsUnfolded(NoVitals);
  }
}
