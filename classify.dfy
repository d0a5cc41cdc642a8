/**
 * The threshold rules of the screening engine (HEALTH_SCREEN.py): one classifier per
 * metric, each an ordered first-match-wins chain over exact real readings.
 */
module Classify {
  import opened Text

  // ---------------------------------------------------------------- blood pressure

  datatype BpCategory = BpLow | BpNormal | BpModerateHigh | BpHigh {
    function Label(): string {
      match this
      case BpLow => "LOW"
      case BpNormal => "NORMAL"
      case BpModerateHigh => "MODERATE HIGH"
      case BpHigh => "HIGH"
    }
    /** Position on the low-to-high scale. */
    function Rank(): nat {
      match this
      case BpLow => 0
      case BpNormal => 1
      case BpModerateHigh => 2
      case BpHigh => 3
    }
  }

  /**
   * LOW, then HIGH, then MODERATE HIGH, else NORMAL. The contract states each
   * category as the region of the (systolic, diastolic) plane it covers: NORMAL is
   * the box [100,141) x [60,91), so 140.5/90.5 is NORMAL and 160/99 is MODERATE HIGH.
   */
  function CategorizeBp(systolic: real, diastolic: real): (c: BpCategory)
    ensures c == BpLow <==> systolic < 100.0 || diastolic < 60.0
    ensures c == BpHigh <==>
      systolic >= 100.0 && diastolic >= 60.0 && (systolic > 160.0 || diastolic > 99.0)
    ensures c == BpModerateHigh <==>
      100.0 <= systolic <= 160.0 && 60.0 <= diastolic <= 99.0 && (systolic >= 141.0 || diastolic >= 91.0)
    ensures c == BpNormal <==> 100.0 <= systolic < 141.0 && 60.0 <= diastolic < 91.0
  {
    if systolic < 100.0 || diastolic < 60.0 then BpLow
    else if systolic > 160.0 || diastolic > 99.0 then BpHigh
    else if (141.0 <= systolic <= 160.0) || (91.0 <= diastolic <= 99.0) then BpModerateHigh
    else BpNormal
  }

  /** Raising either reading never lowers the category. */
  lemma BpMonotone(s1: real, d1: real, s2: real, d2: real)
    requires s1 <= s2 && d1 <= d2
    ensures CategorizeBp(s1, d1).Rank() <= CategorizeBp(s2, d2).Rank()
  {
  }

  lemma BpBoundaries()
    ensures CategorizeBp(160.0, 99.0) == BpModerateHigh
    ensures CategorizeBp(90.0, 120.0) == BpLow
    ensures CategorizeBp(140.5, 90.5) == BpNormal
    ensures CategorizeBp(150.0, 95.0) == BpModerateHigh
    ensures CategorizeBp(110.0, 70.0) == BpNormal
    ensures CategorizeBp(170.0, 105.0) == BpHigh
  {
  }

  // ---------------------------------------------------------------- blood glucose

  datatype GlucoseCategory = GlucoseNormal | PreDiabetic | Diabetic {
    function Label(): string {
      match this
      case GlucoseNormal => "NORMAL"
      case PreDiabetic => "PRE_DIABETIC"
      case Diabetic => "DIABETIC"
    }
    function Rank(): nat {
      match this
      case GlucoseNormal => 0
      case PreDiabetic => 1
      case Diabetic => 2
    }
  }

  /** DIABETIC above 125, PRE_DIABETIC on [100,125], NORMAL below 100: no gaps. */
  function CategorizeGlucose(reading: real): (c: GlucoseCategory)
    ensures c == Diabetic <==> reading > 125.0
    ensures c == PreDiabetic <==> 100.0 <= reading <= 125.0
    ensures c == GlucoseNormal <==> reading < 100.0
  {
    if reading > 125.0 then Diabetic
    else if 100.0 <= reading <= 125.0 then PreDiabetic
    else GlucoseNormal
  }

  lemma GlucoseMonotone(x: real, y: real)
    requires x <= y
    ensures CategorizeGlucose(x).Rank() <= CategorizeGlucose(y).Rank()
  {
  }

  // ---------------------------------------------------------------- cholesterol

  datatype CholesterolCategory = CholesterolNormal | BorderlineHigh | CholesterolHigh {
    function Label(): string {
      match this
      case CholesterolNormal => "NORMAL"
      case BorderlineHigh => "BORDERLINE HIGH"
      case CholesterolHigh => "HIGH"
    }
    function Rank(): nat {
      match this
      case CholesterolNormal => 0
      case BorderlineHigh => 1
      case CholesterolHigh => 2
    }
  }

  /**
   * HIGH above 240, BORDERLINE HIGH on [200,239], else NORMAL. The NORMAL region
   * therefore has two pieces: below 200, and the gap (239,240].
   */
  function CategorizeCholesterol(reading: real): (c: CholesterolCategory)
    ensures c == CholesterolHigh <==> reading > 240.0
    ensures c == BorderlineHigh <==> 200.0 <= reading <= 239.0
    ensures c == CholesterolNormal <==> reading < 200.0 || 239.0 < reading <= 240.0
  {
    if reading > 240.0 then CholesterolHigh
    else if 200.0 <= reading <= 239.0 then BorderlineHigh
    else CholesterolNormal
  }

  /** The gap makes the rule non-monotone: 239 is BORDERLINE HIGH but 239.5 and 240 are NORMAL. */
  lemma CholesterolGap()
    ensures CategorizeCholesterol(239.0) == BorderlineHigh
    ensures CategorizeCholesterol(239.5) == CholesterolNormal
    ensures CategorizeCholesterol(240.0) == CholesterolNormal
    ensures CategorizeCholesterol(240.5) == CholesterolHigh
    ensures CategorizeCholesterol(239.0).Rank() > CategorizeCholesterol(240.0).Rank()
  {
  }

  // ---------------------------------------------------------------- BMI, population variant

  datatype PopulationBmi = BelowNormal | BmiNormal | Overweight | Obesity {
    function Label(): string {
      match this
      case BelowNormal => "BELOW NORMAL"
      case BmiNormal => "NORMAL"
      case Overweight => "OVERWEIGHT"
      case Obesity => "OBESITY"
    }
    function Rank(): nat {
      match this
      case BelowNormal => 0
      case BmiNormal => 1
      case Overweight => 2
      case Obesity => 3
    }
  }

  /** OBESITY above 30, OVERWEIGHT on [25,30], NORMAL on [18.5,25), BELOW NORMAL below 18.5. */
  function CategorizePopulationBmi(bmi: real): (c: PopulationBmi)
    ensures c == Obesity <==> bmi > 30.0
    ensures c == Overweight <==> 25.0 <= bmi <= 30.0
    ensures c == BmiNormal <==> 18.5 <= bmi < 25.0
    ensures c == BelowNormal <==> bmi < 18.5
  {
    if bmi > 30.0 then Obesity
    else if 25.0 <= bmi <= 30.0 then Overweight
    else if 18.5 <= bmi <= 25.0 then BmiNormal
    else BelowNormal
  }

  lemma PopulationBmiMonotone(x: real, y: real)
    requires x <= y
    ensures CategorizePopulationBmi(x).Rank() <= CategorizePopulationBmi(y).Rank()
  {
  }

  // ---------------------------------------------------------------- BMI, individual variant

  datatype IndividualBmi = Underweight | IndividualNormal | IndividualOverweight | Obese {
    function Label(): string {
      match this
      case Underweight => "UNDERWEIGHT"
      case IndividualNormal => "NORMAL"
      case IndividualOverweight => "OVERWEIGHT"
      case Obese => "OBESE"
    }
    function Rank(): nat {
      match this
      case Underweight => 0
      case IndividualNormal => 1
      case IndividualOverweight => 2
      case Obese => 3
    }
  }

  /**
   * UNDERWEIGHT below 18.5, NORMAL on [18.5,24.9], OVERWEIGHT on [25,29.9], else OBESE;
   * OBESE thus also covers the gaps (24.9,25) and (29.9,30).
   */
  function CategorizeIndividualBmi(bmi: real): (c: IndividualBmi)
    ensures c == Underweight <==> bmi < 18.5
    ensures c == IndividualNormal <==> 18.5 <= bmi <= 24.9
    ensures c == IndividualOverweight <==> 25.0 <= bmi <= 29.9
    ensures c == Obese <==> (24.9 < bmi < 25.0) || bmi > 29.9
  {
    if bmi < 18.5 then Underweight
    else if 18.5 <= bmi <= 24.9 then IndividualNormal
    else if 25.0 <= bmi <= 29.9 then IndividualOverweight
    else Obese
  }

  /** The two BMI tables name the same band the same way, pairing BELOW NORMAL with UNDERWEIGHT. */
  predicate SameBand(p: PopulationBmi, i: IndividualBmi) {
    p.Rank() == i.Rank()
  }

  /**
   * The two BMI variants agree everywhere except on (24.9,25) and (29.9,30]: there the
   * individual variant says OBESE while the population variant says NORMAL or OVERWEIGHT.
   */
  lemma BmiVariantsAgreeOutsideGaps(bmi: real)
    ensures SameBand(CategorizePopulationBmi(bmi), CategorizeIndividualBmi(bmi)) <==>
      !(24.9 < bmi < 25.0 || 29.9 < bmi <= 30.0)
  {
  }

  lemma BmiBoundaries()
    ensures CategorizePopulationBmi(25.0) == Overweight
    ensures CategorizePopulationBmi(30.0) == Overweight
    ensures CategorizeIndividualBmi(25.0) == IndividualOverweight
    ensures CategorizeIndividualBmi(24.95) == Obese
    ensures CategorizeIndividualBmi(29.95) == Obese
  {
  }

  // ---------------------------------------------------------------- PSA and urine

  /** A PSA cell: either already qualitative text or a numeric reading. */
  datatype Psa = PsaText(text: string) | PsaReading(reading: real)

  /** Text is upper-cased; a number above 4.0 is POSITIVE, anything else NEGATIVE. */
  function PsaResult(psa: Psa): (r: string)
    ensures psa.PsaText? ==> r == Upper(psa.text)
    ensures psa.PsaReading? ==> (r == "POSITIVE" <==> psa.reading > 4.0)
    ensures psa.PsaReading? ==> (r == "NEGATIVE" <==> psa.reading <= 4.0)
  {
    match psa
    case PsaText(t) => Upper(t)
    case PsaReading(x) => if x > 4.0 then "POSITIVE" else "NEGATIVE"
  }
}
