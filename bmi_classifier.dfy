/**
 * The client's BMI calculator: read weight (kg) and height (cm) from the form, compute
 * weight / (height/100)^2 and place the result in one of five half-open bands, each with
 * its own label, colour and advice.
 */
module BmiClassifier {
  import opened JsCoercion

  datatype Band = SeverelyUnderweight | Underweight | Healthy | Overweight | Obese

  /** The result the form shows. */
  datatype BmiResult = BmiResult(value: real, classification: string, color: string, tip: string)

  function Label(b: Band): string {
    match b
    case SeverelyUnderweight => "Severely Underweight"
    case Underweight => "Underweight"
    case Healthy => "Healthy"
    case Overweight => "Overweight"
    case Obese => "Obese"
  }

  function Color(b: Band): string {
    match b
    case SeverelyUnderweight => "#e74c3c"
    case Underweight => "#e67e22"
    case Healthy => "#2ecc71"
    case Overweight => "#e67e22"
    case Obese => "#e74c3c"
  }

  function Advice(b: Band): string {
    match b
    case SeverelyUnderweight => "Consider consulting a healthcare provider and increasing your calorie intake."
    case Underweight => "Consider a balanced diet with more calorie-dense foods and consult a nutritionist."
    case Healthy => "Your BMI is healthy! Maintain your current lifestyle."
    case Overweight => "Consider regular exercise and a balanced diet to improve your health."
    case Obese => "It's advisable to consult a healthcare provider for a structured weight management plan."
  }

  /** Position of a band on the scale, lightest first. */
  function Rank(b: Band): nat {
    match b
    case SeverelyUnderweight => 0
    case Underweight => 1
    case Healthy => 2
    case Overweight => 3
    case Obese => 4
  }

  /** The bands as intervals: each contains its lower bound and excludes its upper one. */
  predicate InBand(bmi: real, b: Band) {
    match b
    case SeverelyUnderweight => bmi < 16.0
    case Underweight => 16.0 <= bmi < 18.5
    case Healthy => 18.5 <= bmi < 25.0
    case Overweight => 25.0 <= bmi < 30.0
    case Obese => 30.0 <= bmi
  }

  /** The if/else chain of the calculator. */
  function Classify(bmi: real): (b: Band)
    ensures InBand(bmi, b)
  {
    if bmi < 16.0 then SeverelyUnderweight
    else if bmi < 18.5 then Underweight
    else if bmi < 25.0 then Healthy
    else if bmi < 30.0 then Overweight
    else Obese
  }

  /** No value lies in two bands. */
  lemma BandsDisjoint(bmi: real, b1: Band, b2: Band)
    requires InBand(bmi, b1) && InBand(bmi, b2)
    ensures b1 == b2
  {
  }

  /** The chain picks a band exactly when the value lies in its interval. */
  lemma ClassifyIffInBand(bmi: real, b: Band)
    ensures Classify(bmi) == b <==> InBand(bmi, b)
  {
    if InBand(bmi, b) {
      BandsDisjoint(bmi, b, Classify(bmi));
    }
  }

  /** A larger BMI never lands in a lighter band. */
  lemma ClassifyMonotone(x: real, y: real)
    requires x <= y
    ensures Rank(Classify(x)) <= Rank(Classify(y))
  {
  }

  /** Values on a threshold belong to the band above it. */
  lemma BoundariesGoUp()
    ensures Classify(16.0) == Underweight && Classify(18.5) == Healthy
    ensures Classify(25.0) == Overweight && Classify(30.0) == Obese
  {
  }

  /** Each band has its own label, so the label shown names the band. */
  lemma LabelsDistinct(b1: Band, b2: Band)
    requires b1 != b2
    ensures Label(b1) != Label(b2)
  {
    assert Label(SeverelyUnderweight)[0] == 'S' && Label(Healthy)[0] == 'H';
    assert Label(Underweight)[0] == 'U' && Label(Overweight)[0] == 'O' && |Label(Obese)| == 5;
  }

  /** weight / (height/100)^2: kilograms per square metre. */
  function BodyMassIndex(weight: real, height: real): (bmi: real)
    requires height != 0.0
    ensures bmi * ((height / 100.0) * (height / 100.0)) == weight
    ensures weight > 0.0 ==> bmi > 0.0
  {
    var heightInMeters := height / 100.0;
    weight / (heightInMeters * heightInMeters)
  }

  /** `!x` for a number `parseFloat` produced: NaN and 0 are falsy. */
  predicate UsableNumber(x: Option<real>) {
    x.Some? && x.value != 0.0
  }

  /** The result shows the label, colour and advice of band `b`. */
  predicate Shows(r: BmiResult, b: Band) {
    r.classification == Label(b) && r.color == Color(b) && r.tip == Advice(b)
  }

  /** The calculator's handler; `None` is the alert for unusable input. */
  function HandleBmiCalc(bmiWeight: string, bmiHeight: string): (r: Option<BmiResult>)
    ensures r.None? <==> !UsableNumber(ParseFloatText(bmiWeight)) || !UsableNumber(ParseFloatText(bmiHeight))
    ensures r.Some? ==> Shows(r.value, Classify(r.value.value))
    ensures r.Some? ==> r.value.value == BodyMassIndex(ParseFloatText(bmiWeight).value, ParseFloatText(bmiHeight).value)
  {
    var weight := ParseFloatText(bmiWeight);
    var height := ParseFloatText(bmiHeight);
    if !UsableNumber(weight) || !UsableNumber(height) then None
    else
      var bmi := BodyMassIndex(weight.value, height.value);
      var band := Classify(bmi);
      Some(BmiResult(bmi, Label(band), Color(band), Advice(band)))
  }

  /** Once both fields are read as usable numbers, the result is the band of their BMI. */
  lemma HandleReadNumbers(bmiWeight: string, bmiHeight: string, weight: real, height: real)
    requires ParseFloatText(bmiWeight) == Some(weight) && weight != 0.0
    requires ParseFloatText(bmiHeight) == Some(height) && height != 0.0
    ensures HandleBmiCalc(bmiWeight, bmiHeight).Some?
    ensures HandleBmiCalc(bmiWeight, bmiHeight).value.classification == Label(Classify(BodyMassIndex(weight, height)))
  {
  }

  /** The text of a natural number, optionally after a minus sign, is read by `parseFloat`. */
  lemma NumeralRead(t: string, n: nat, negative: bool)
    requires t == (if negative then "-" else "") + DecimalText(n)
    ensures ParseFloatText(t) == Some(if negative then -(n as real) else n as real)
  {
    if negative {
      NegativeTextRoundTrip(n);
    } else {
      assert t == DecimalText(n);
      DecimalTextRoundTrip(n);
    }
  }

  /** 70 kg at 175 cm is about 22.86, a healthy BMI. */
  lemma HealthyExample()
    ensures HandleBmiCalc("70", "175").Some?
    ensures HandleBmiCalc("70", "175").value.classification == "Healthy"
  {
    WeightTextsRead();
    HeightTextRead();
    ExampleBands();
    HandleReadNumbers("70", "175", 70.0, 175.0);
  }

  /** Only 0 and NaN are refused, so a negative weight still gets a band. */
  lemma NegativeWeightClassified()
    ensures HandleBmiCalc("-70", "175").Some?
    ensures HandleBmiCalc("-70", "175").value.classification == "Severely Underweight"
  {
    WeightTextsRead();
    HeightTextRead();
    ExampleBands();
    HandleReadNumbers("-70", "175", -70.0, 175.0);
  }

  lemma WeightTextsRead()
    ensures ParseFloatText("70") == Some(70.0) && ParseFloatText("-70") == Some(-70.0)
  {
    DecimalTextOf70();
    NumeralRead("70", 70, false);
    NumeralRead("-70", 70, true);
  }

  lemma HeightTextRead()
    ensures ParseFloatText("175") == Some(175.0)
  {
    DecimalTextOf175();
    NumeralRead("175", 175, false);
  }

  lemma ExampleBands()
    ensures Classify(BodyMassIndex(70.0, 175.0)) == Healthy && Label(Healthy) == "Healthy"
    ensures Classify(BodyMassIndex(-70.0, 175.0)) == SeverelyUnderweight
    ensures Label(SeverelyUnderweight) == "Severely Underweight"
  {
    assert BodyMassIndex(70.0, 175.0) * 3.0625 == 70.0;
    assert BodyMassIndex(-70.0, 175.0) * 3.0625 == -70.0;
  }

  lemma DecimalTextOf70()
    ensures DecimalText(70) == "70" && "-" + DecimalText(70) == "-70"
  {
    assert DecimalText(70) == DecimalText(7) + [DigitChar(0)];
  }

  lemma DecimalTextOf175()
    ensures DecimalText(175) == "175"
  {
    assert DecimalText(175) == DecimalText(17) + [DigitChar(5)] == DecimalText(1) + [DigitChar(7)] + [DigitChar(5)];
  }
}
