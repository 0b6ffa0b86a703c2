/** The class label on the home page's hero card. */
module HeroSection {
  import opened Common
  import DegreeProgress

  datatype ClassBand = FirstClass | SecondUpper | SecondLower | GeneralPass | BelowPass

  function BandText(b: ClassBand): string {
    match b
    case FirstClass => "First Class"
    case SecondUpper => "Second Upper"
    case SecondLower => "Second Lower"
    case GeneralPass => "General Pass"
    case BelowPass => "Below Pass"
  }

  /** 0 for the best band, 4 for the worst. */
  function Rank(b: ClassBand): nat {
    match b
    case FirstClass => 0
    case SecondUpper => 1
    case SecondLower => 2
    case GeneralPass => 3
    case BelowPass => 4
  }

  /** `getClassLabel`: the first band whose lower bound the GPA reaches. */
  function GetClassLabel(gpa: real): (b: ClassBand)
    ensures b == FirstClass <==> gpa >= 3.7
    ensures b == SecondUpper <==> 3.3 <= gpa < 3.7
    ensures b == SecondLower <==> 3.0 <= gpa < 3.3
    ensures b == GeneralPass <==> 2.0 <= gpa < 3.0
    ensures b == BelowPass <==> gpa < 2.0
  {
    if gpa >= 3.7 then FirstClass
    else if gpa >= 3.3 then SecondUpper
    else if gpa >= 3.0 then SecondLower
    else if gpa >= 2.0 then GeneralPass
    else BelowPass
  }

  /** A higher GPA never gets a worse band. */
  lemma ClassLabelMonotone(g1: real, g2: real)
    requires g1 <= g2
    ensures Rank(GetClassLabel(g2)) <= Rank(GetClassLabel(g1))
  {
  }

  /** `classLabel`: the band of a positive GPA, and "—" (`None`) for a GPA
      that is missing, unparsable (`None`) or not positive. */
  function ClassLabel(gpa: Option<real>): (shown: Option<ClassBand>)
    ensures shown.None? <==> gpa.None? || gpa.value <= 0.0
    ensures shown.Some? ==> shown.value == GetClassLabel(gpa.value)
  {
    var gpaNum := gpa.GetOr(0.0);
    if gpaNum > 0.0 then Some(GetClassLabel(gpaNum)) else None
  }

  /** With 40 credits at the needed grades, the degree engine's honours
      tiers are met for exactly the GPAs this card bands as first class,
      second upper or better, and second lower or better. */
  lemma BandsMatchHonoursTiers(gpa: real, credA: real, credB: real)
    requires credA >= 40.0 && credB >= 40.0
    ensures var h := DegreeProgress.HonoursRequirements(gpa, credA, credB);
            && (h[0].met <==> Rank(GetClassLabel(gpa)) <= 0)
            && (h[1].met <==> Rank(GetClassLabel(gpa)) <= 1)
            && (h[2].met <==> Rank(GetClassLabel(gpa)) <= 2)
  {
  }
}
