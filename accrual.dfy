/** The arithmetic of the brand service's purchase processing: which linked
    campaigns apply to a purchase, the bonus sums, and the apply-points
    order built from them. */
module Accrual {
  import opened BrandStore
  import opened Messages

  /** The loop's two `continue` tests: inactive, amount outside
      `[MinValue, MaxValue]`, or date `Before` the start or `After` the end. */
  predicate Skipped(c: Campaign, amount: real, date: int)
  {
    c.status != ActiveStatus || amount < c.minValue || amount > c.maxValue
    || date < c.startDate || date > c.endDate
  }

  predicate Matches(c: Campaign, amount: real, date: int)
  {
    !Skipped(c, amount, date)
  }

  /** Both ends of both windows are inside: a campaign matches at its bounds. */
  lemma MatchesAtBounds(c: Campaign, amount: real, date: int)
    requires c.status == ActiveStatus
    requires amount == c.minValue || amount == c.maxValue
    requires date == c.startDate || date == c.endDate
    requires c.minValue <= c.maxValue && c.startDate <= c.endDate
    ensures Matches(c, amount, date)
  {
  }

  /** The campaigns the loop does not skip, in loop order. */
  function Matched(cs: seq<Campaign>, amount: real, date: int): (r: seq<Campaign>)
    ensures |r| <= |cs|
    ensures forall i :: 0 <= i < |r| ==> Matches(r[i], amount, date)
    ensures forall c :: c in r <==> c in cs && Matches(c, amount, date)
  {
    if cs == [] then []
    else
      var front := Matched(cs[..|cs| - 1], amount, date);
      assert forall c :: c in cs <==> c in cs[..|cs| - 1] || c == cs[|cs| - 1];
      front + if Matches(cs[|cs| - 1], amount, date) then [cs[|cs| - 1]] else []
  }

  lemma MatchedStep(cs: seq<Campaign>, i: nat, amount: real, date: int)
    requires i < |cs|
    ensures Matched(cs[..i + 1], amount, date)
      == Matched(cs[..i], amount, date) + if Matches(cs[i], amount, date) then [cs[i]] else []
  {
    assert cs[..i + 1][..i] == cs[..i];
  }

  /** What has been matched after `i` campaigns is the start of what is
      matched after all of them. */
  lemma {:induction false} MatchedPrefix(cs: seq<Campaign>, i: nat, amount: real, date: int)
    requires i <= |cs|
    ensures Matched(cs[..i], amount, date) <= Matched(cs, amount, date)
    decreases |cs| - i
  {
    if i < |cs| {
      MatchedPrefix(cs, i + 1, amount, date);
      MatchedStep(cs, i, amount, date);
    } else {
      assert cs[..i] == cs;
    }
  }

  /** When the loop stops at a matching campaign, what it has matched so far
      is a proper start of the full match. */
  lemma StopsInside(cs: seq<Campaign>, i: nat, amount: real, date: int)
    requires i < |cs| && Matches(cs[i], amount, date)
    ensures |Matched(cs[..i], amount, date)| < |Matched(cs, amount, date)|
    ensures Matched(cs, amount, date)[..|Matched(cs[..i], amount, date)|] == Matched(cs[..i], amount, date)
  {
    var done := Matched(cs[..i], amount, date);
    MatchedStep(cs, i, amount, date);
    MatchedPrefix(cs, i + 1, amount, date);
    var ms := Matched(cs, amount, date);
    assert ms[..|done| + 1] == done + [cs[i]];
    assert ms[..|done|] == (done + [cs[i]])[..|done|];
  }

  function Ids(cs: seq<Campaign>): (r: seq<int>)
    ensures |r| == |cs|
    ensures forall i :: 0 <= i < |cs| ==> r[i] == cs[i].id
  {
    if cs == [] then [] else Ids(cs[..|cs| - 1]) + [cs[|cs| - 1].id]
  }

  /** `totalPoints += basePoints * campaign.PointFactor`, over the matched
      campaigns in order. */
  function PointBonus(basePoints: real, ms: seq<Campaign>): real
  {
    if ms == [] then 0.0 else PointBonus(basePoints, ms[..|ms| - 1]) + basePoints * ms[|ms| - 1].pointFactor
  }

  function CoinBonus(baseCoins: real, ms: seq<Campaign>): real
  {
    if ms == [] then 0.0 else CoinBonus(baseCoins, ms[..|ms| - 1]) + baseCoins * ms[|ms| - 1].coinFactor
  }

  function PointFactors(ms: seq<Campaign>): real
  {
    if ms == [] then 0.0 else PointFactors(ms[..|ms| - 1]) + ms[|ms| - 1].pointFactor
  }

  function CoinFactors(ms: seq<Campaign>): real
  {
    if ms == [] then 0.0 else CoinFactors(ms[..|ms| - 1]) + ms[|ms| - 1].coinFactor
  }

  /** Bonuses do not compound: each is taken off the base amount, so the sum
      is the base times the sum of the factors, whatever their order. */
  lemma {:induction false} NonCompounding(basePoints: real, baseCoins: real, ms: seq<Campaign>)
    ensures PointBonus(basePoints, ms) == basePoints * PointFactors(ms)
    ensures CoinBonus(baseCoins, ms) == baseCoins * CoinFactors(ms)
  {
    if ms != [] {
      NonCompounding(basePoints, baseCoins, ms[..|ms| - 1]);
    }
  }

  /** Go's `int(x)` on a float: truncation toward zero. */
  function Trunc(x: real): (r: int)
    ensures x >= 0.0 ==> 0 <= r && r as real <= x < r as real + 1.0
    ensures x < 0.0 ==> r <= 0 && r as real - 1.0 < x <= r as real
  {
    if x >= 0.0 then x.Floor else -((-x).Floor)
  }

  /** The apply-points order for a purchase whose base points and coins are
      `basePoints` and `baseCoins`: the bases plus the bonuses, truncated. */
  function Award(p: Purchase, basePoints: real, baseCoins: real, ms: seq<Campaign>): LealPointsApply
  {
    LealPointsApply(p.customerId, p.brandId,
      Trunc(basePoints + PointBonus(basePoints, ms)),
      Trunc(baseCoins + CoinBonus(baseCoins, ms)),
      "purchase")
  }

  /** The apply-points order for a purchase, given the base campaign and the
      matched campaigns: the bases are the amount times the base campaign's
      factors. */
  function Accrue(p: Purchase, base: Campaign, ms: seq<Campaign>): LealPointsApply
  {
    Award(p, BasePoints(p, base), BaseCoins(p, base), ms)
  }

  /** `purchase.Amount * baseCampaign.PointFactor`. */
  function BasePoints(p: Purchase, base: Campaign): real
  {
    p.amount * base.pointFactor
  }

  /** `purchase.Amount * baseCampaign.CoinFactor`. */
  function BaseCoins(p: Purchase, base: Campaign): real
  {
    p.amount * base.coinFactor
  }

  lemma Distributes(b: real, f: real)
    ensures b + b * f == b * (1.0 + f)
  {
  }

  /** The order credits each base times one plus the sum of the matched
      factors, truncated toward zero. */
  lemma AwardSpec(p: Purchase, basePoints: real, baseCoins: real, ms: seq<Campaign>)
    ensures Award(p, basePoints, baseCoins, ms) == LealPointsApply(p.customerId, p.brandId,
      Trunc(basePoints * (1.0 + PointFactors(ms))),
      Trunc(baseCoins * (1.0 + CoinFactors(ms))),
      "purchase")
  {
    NonCompounding(basePoints, baseCoins, ms);
    Distributes(basePoints, PointFactors(ms));
    Distributes(baseCoins, CoinFactors(ms));
  }

  /** The order made for a purchase: its customer and brand, reason
      "purchase", and points and coins that are the truncation of
      amount × base factor × (1 + the matched campaigns' factors). */
  lemma AccrueSpec(p: Purchase, base: Campaign, ms: seq<Campaign>)
    ensures Accrue(p, base, ms) == LealPointsApply(p.customerId, p.brandId,
      Trunc(BasePoints(p, base) * (1.0 + PointFactors(ms))),
      Trunc(BaseCoins(p, base) * (1.0 + CoinFactors(ms))),
      "purchase")
  {
    AwardSpec(p, BasePoints(p, base), BaseCoins(p, base), ms);
  }
}
