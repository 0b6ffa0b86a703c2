/** The credit-progress arithmetic of the dashboard card and of the
    course-registration page, which compute the same expressions: the
    share of the degree target reached (capped at 100%), the credits
    still missing, and the colour band of the bar. */
module CreditProgress {
  import opened Common

  /** `Math.min((credits / target) * 100, 100)`, for a positive target. */
  function Pct(credits: real, target: real): (r: real)
    requires target > 0.0
    ensures r <= 100.0
    ensures credits >= 0.0 ==> r >= 0.0
    ensures r == 100.0 <==> credits >= target
  {
    ShareReachesTarget(credits, target);
    var p := credits / target * 100.0;
    if p < 100.0 then p else 100.0
  }

  lemma ShareReachesTarget(credits: real, target: real)
    requires target > 0.0
    ensures credits / target * 100.0 >= 100.0 <==> credits >= target
    ensures credits >= 0.0 ==> credits / target >= 0.0
  {
    assert credits / target * target == credits;
  }

  /** `Math.max(target - credits, 0)`. */
  function Remaining(credits: real, target: real): (r: real)
    ensures r >= 0.0
    ensures r == 0.0 <==> credits >= target
    ensures credits + r >= target
  {
    if target - credits > 0.0 then target - credits else 0.0
  }

  /** The target is reached exactly when the bar is full. */
  lemma FullIffNothingRemaining(credits: real, target: real)
    requires target > 0.0
    ensures Pct(credits, target) == 100.0 <==> Remaining(credits, target) == 0.0
  {
  }

  /** More credits never shrink the bar nor grow what remains. */
  lemma ProgressMonotone(c1: real, c2: real, target: real)
    requires target > 0.0 && c1 <= c2
    ensures Pct(c1, target) <= Pct(c2, target)
    ensures Remaining(c2, target) <= Remaining(c1, target)
  {
    assert c2 / target - c1 / target == (c2 - c1) / target;
  }

  datatype BarColor = Emerald | Amber | Red

  /** The bar colour for a percentage: emerald from 80, amber from 50. */
  function BarColorOf(pct: real): BarColor {
    if pct >= 80.0 then Emerald else if pct >= 50.0 then Amber else Red
  }

  function ColorRank(c: BarColor): nat {
    match c
    case Red => 0
    case Amber => 1
    case Emerald => 2
  }

  /** Each colour covers one band, and the bands are ordered. */
  lemma BarColorBands(pct: real, other: real)
    ensures BarColorOf(pct) == Emerald <==> pct >= 80.0
    ensures BarColorOf(pct) == Amber <==> 50.0 <= pct < 80.0
    ensures BarColorOf(pct) == Red <==> pct < 50.0
    ensures pct <= other ==> ColorRank(BarColorOf(pct)) <= ColorRank(BarColorOf(other))
  {
  }

  /** A completed degree shows an emerald bar. */
  lemma CompletedIsEmerald(credits: real, target: real)
    requires target > 0.0 && credits >= target
    ensures BarColorOf(Pct(credits, target)) == Emerald
  {
  }

  datatype Progress = Progress(pct: real, remaining: real, color: BarColor)

  /** The dashboard card: nothing when the credit total is missing or 0,
      otherwise the bar for the selected degree target. */
  function CreditProgressCard(totalCredits: Option<real>, target: real): (v: Option<Progress>)
    requires target > 0.0
    ensures v.None? <==> totalCredits.GetOr(0.0) == 0.0
    ensures v.Some? ==> v.value.pct <= 100.0 && v.value.remaining >= 0.0
    ensures v.Some? && totalCredits.value >= 0.0 ==> v.value.pct >= 0.0
  {
    var credits := totalCredits.GetOr(0.0);
    if credits == 0.0 then None
    else
      var pct := Pct(credits, target);
      Some(Progress(pct, Remaining(credits, target), BarColorOf(pct)))
  }
}
