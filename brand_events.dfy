/** `AppService` of the brand service: a purchase message from the customer
    service is turned into counter increments on the matched campaigns and
    one apply-points order published back. */
module BrandEvents {
  import opened Wrappers
  import opened BrandStore
  import opened Messages
  import opened Accrual
  import CampaignRepo
  import BrandUsecases

  /** `SendApplyPointsEvent`: the order goes to the configured apply-points
      topic; a failing producer returns its error and publishes nothing. */
  method SendApplyPointsEvent(db: BrandDb, event: LealPointsApply, fault: Fault) returns (r: Outcome)
    modifies db
    ensures db.brands == old(db.brands) && db.branches == old(db.branches)
    ensures db.campaigns == old(db.campaigns) && db.links == old(db.links)
    ensures FailsAt(fault, 0) ==> r == Fail(SendFailure) && db.outbox == old(db.outbox)
    ensures !FailsAt(fault, 0) ==> r == Pass && db.outbox == old(db.outbox) + [ApplyPointsMsg(db.applyTopic, event)]
  {
    if FailsAt(fault, 0) {
      return Fail(SendFailure);
    }
    db.outbox := db.outbox + [ApplyPointsMsg(db.applyTopic, event)];
    return Pass;
  }

  /** The campaigns a purchase is credited for: those the branch query
      returns that the loop does not skip, in query order. */
  function PurchaseMatches(ls: seq<Link>, cs: seq<Campaign>, p: Purchase): seq<Campaign>
  {
    Matched(ForBranch(ls, cs, p.branchId), p.amount, p.purchaseDate)
  }

  /** `AppService.ProcessPurchase`. Base lookup, branch query, the `i`-th
      counter increment (`countFault` step `i`) and the send can each fail.
      Before the loop nothing is written. An increment failure returns its
      error with the earlier increments kept and nothing sent. A send
      failure keeps every increment. On success each matched campaign was
      incremented once per time it was matched and the order `Accrue`
      builds was published. */
  method ProcessPurchase(db: BrandDb, p: Purchase, baseFault: Fault, branchFault: Fault,
                         countFault: Fault, sendFault: Fault) returns (r: Outcome)
    requires db.Valid()
    modifies db
    ensures db.Valid()
    ensures db.brands == old(db.brands) && db.branches == old(db.branches) && db.links == old(db.links)
    ensures FailsAt(baseFault, 0) ==>
      r == Fail(Failure("failed to retrieve base campaign"))
      && db.campaigns == old(db.campaigns) && db.outbox == old(db.outbox)
    ensures !FailsAt(baseFault, 0) && FindBase(old(db.campaigns), p.brandId).None? ==>
      r == Fail(Failure("no base campaign found for the brand"))
      && db.campaigns == old(db.campaigns) && db.outbox == old(db.outbox)
    ensures !FailsAt(baseFault, 0) && FindBase(old(db.campaigns), p.brandId).Some? && FailsAt(branchFault, 0) ==>
      r == Fail(Failure("failed to retrieve campaigns for branch"))
      && db.campaigns == old(db.campaigns) && db.outbox == old(db.outbox)
    ensures !FailsAt(baseFault, 0) && FindBase(old(db.campaigns), p.brandId).Some? && !FailsAt(branchFault, 0) ==>
      var ms := PurchaseMatches(old(db.links), old(db.campaigns), p);
      db.campaigns == BumpAll(old(db.campaigns), Ids(ms[..Done(countFault, 0, |ms|)]))
      && (Aborts(countFault, 0, |ms|) ==> r == Fail(DbFailure) && db.outbox == old(db.outbox))
      && (!Aborts(countFault, 0, |ms|) && FailsAt(sendFault, 0) ==>
            r == Fail(Failure("failed to send apply points event")) && db.outbox == old(db.outbox))
      && (!Aborts(countFault, 0, |ms|) && !FailsAt(sendFault, 0) ==>
            r == Pass
            && db.outbox == old(db.outbox) + [ApplyPointsMsg(db.applyTopic,
                 Accrue(p, FindBase(old(db.campaigns), p.brandId).value, ms))])
  {
    var found := CampaignRepo.GetBaseCampaignForBrand(db, p.brandId, baseFault);
    if found.Err? {
      return Fail(Failure("failed to retrieve base campaign"));
    }
    if found.value.None? {
      return Fail(Failure("no base campaign found for the brand"));
    }
    var base := found.value.value;
    var fetched := CampaignRepo.GetCampaignsForBranch(db, p.branchId, branchFault);
    if fetched.Err? {
      return Fail(Failure("failed to retrieve campaigns for branch"));
    }
    r := Credit(db, p, base, fetched.value, countFault, sendFault);
  }

  /** The second half of `ProcessPurchase`, once the base campaign and the
      branch's campaigns are known: the loop, then the send. */
  method Credit(db: BrandDb, p: Purchase, base: Campaign, campaigns: seq<Campaign>,
                countFault: Fault, sendFault: Fault) returns (r: Outcome)
    requires db.Valid()
    modifies db
    ensures db.Valid()
    ensures db.brands == old(db.brands) && db.branches == old(db.branches) && db.links == old(db.links)
    ensures var ms := Matched(campaigns, p.amount, p.purchaseDate);
      db.campaigns == BumpAll(old(db.campaigns), Ids(ms[..Done(countFault, 0, |ms|)]))
      && (Aborts(countFault, 0, |ms|) ==> r == Fail(DbFailure) && db.outbox == old(db.outbox))
      && (!Aborts(countFault, 0, |ms|) && FailsAt(sendFault, 0) ==>
            r == Fail(Failure("failed to send apply points event")) && db.outbox == old(db.outbox))
      && (!Aborts(countFault, 0, |ms|) && !FailsAt(sendFault, 0) ==>
            r == Pass && db.outbox == old(db.outbox) + [ApplyPointsMsg(db.applyTopic, Accrue(p, base, ms))])
  {
    ghost var ms := Matched(campaigns, p.amount, p.purchaseDate);
    var basePoints := BasePoints(p, base);
    var baseCoins := BaseCoins(p, base);
    var counted, totalPoints, totalCoins := ApplyCampaigns(db, campaigns, p, basePoints, baseCoins, countFault);
    BumpAllSerial(old(db.campaigns), Ids(ms[..Done(countFault, 0, |ms|)]));
    if counted.Fail? {
      return counted;
    }
    var pointsInfo := LealPointsApply(p.customerId, p.brandId, Trunc(totalPoints), Trunc(totalCoins), "purchase");
    TalliedAccrues(p, base, ms, totalPoints, totalCoins);
    var sent := SendApplyPointsEvent(db, pointsInfo, sendFault);
    if sent.Fail? {
      return Fail(Failure("failed to send apply points event"));
    }
    return Pass;
  }

  /** Totals that are the bases plus the bonuses truncate to the order
      `Accrue` builds. */
  lemma TalliedAccrues(p: Purchase, base: Campaign, ms: seq<Campaign>, totalPoints: real, totalCoins: real)
    requires Tallied(BasePoints(p, base), BaseCoins(p, base), totalPoints, totalCoins, ms)
    ensures LealPointsApply(p.customerId, p.brandId, Trunc(totalPoints), Trunc(totalCoins), "purchase")
      == Accrue(p, base, ms)
  {
  }

  /** The loop of `ProcessPurchase` over the branch's campaigns: the ones not
      skipped are incremented in order (the `n`-th increment is `countFault`
      step `n`) and add their bonuses to the totals, which start at the base
      amounts. The first failing increment stops the loop. */
  method ApplyCampaigns(db: BrandDb, campaigns: seq<Campaign>, p: Purchase, basePoints: real, baseCoins: real,
                        countFault: Fault) returns (r: Outcome, totalPoints: real, totalCoins: real)
    modifies db
    ensures db.brands == old(db.brands) && db.branches == old(db.branches)
    ensures db.links == old(db.links) && db.outbox == old(db.outbox)
    ensures var ms := Matched(campaigns, p.amount, p.purchaseDate);
      db.campaigns == BumpAll(old(db.campaigns), Ids(ms[..Done(countFault, 0, |ms|)]))
      && (Aborts(countFault, 0, |ms|) ==> r == Fail(DbFailure))
      && (!Aborts(countFault, 0, |ms|) ==>
            r == Pass && Tallied(basePoints, baseCoins, totalPoints, totalCoins, ms))
  {
    ghost var ms := Matched(campaigns, p.amount, p.purchaseDate);
    ghost var done: seq<Campaign> := [];
    totalPoints := basePoints;
    totalCoins := baseCoins;
    var n := 0;
    for i := 0 to |campaigns|
      invariant db.brands == old(db.brands) && db.branches == old(db.branches)
      invariant db.links == old(db.links) && db.outbox == old(db.outbox)
      invariant done == Matched(campaigns[..i], p.amount, p.purchaseDate)
      invariant n == |done|
      invariant !Aborts(countFault, 0, n)
      invariant db.campaigns == BumpAll(old(db.campaigns), Ids(done))
      invariant Tallied(basePoints, baseCoins, totalPoints, totalCoins, done)
    {
      MatchedStep(campaigns, i, p.amount, p.purchaseDate);
      if Skipped(campaigns[i], p.amount, p.purchaseDate) {
        continue;
      }
      r := Count(db, campaigns[i], CallFault(countFault, n), old(db.campaigns), done);
      if r.Fail? {
        Stopped(campaigns, i, p.amount, p.purchaseDate, countFault, old(db.campaigns), db.campaigns, done);
        return;
      }
      totalPoints, totalCoins := AddBonuses(basePoints, baseCoins, totalPoints, totalCoins, campaigns[i], done);
      done := done + [campaigns[i]];
      n := n + 1;
    }
    Finished(campaigns, p.amount, p.purchaseDate, countFault, done);
    r := Pass;
  }

  /** The loop stopped at the `i`-th campaign, a matched one, because its
      increment failed: the increments so far are those of the matched
      campaigns before the failing one. */
  lemma Stopped(cs: seq<Campaign>, i: nat, amount: real, date: int, f: Fault,
                start: seq<Campaign>, now: seq<Campaign>, done: seq<Campaign>)
    requires i < |cs| && Matches(cs[i], amount, date)
    requires done == Matched(cs[..i], amount, date)
    requires FailsAt(f, |done|)
    requires now == BumpAll(start, Ids(done))
    ensures var ms := Matched(cs, amount, date);
      Aborts(f, 0, |ms|) && now == BumpAll(start, Ids(ms[..Done(f, 0, |ms|)]))
  {
    StopsInside(cs, i, amount, date);
  }

  /** The loop ran to the end: everything matched was incremented. */
  lemma Finished(cs: seq<Campaign>, amount: real, date: int, f: Fault, done: seq<Campaign>)
    requires done == Matched(cs[..|cs|], amount, date)
    requires !Aborts(f, 0, |done|)
    ensures var ms := Matched(cs, amount, date);
      ms == done && !Aborts(f, 0, |ms|) && ms[..Done(f, 0, |ms|)] == done
  {
    assert cs[..|cs|] == cs;
  }

  /** `UpdateCustomerCountCampaign` on a matched campaign: on success the
      counters are those of the matched campaigns so far plus this one. */
  method Count(db: BrandDb, campaign: Campaign, fault: Fault, ghost start: seq<Campaign>, ghost done: seq<Campaign>)
    returns (r: Outcome)
    requires db.campaigns == BumpAll(start, Ids(done))
    modifies db
    ensures db.brands == old(db.brands) && db.branches == old(db.branches)
    ensures db.links == old(db.links) && db.outbox == old(db.outbox)
    ensures FailsAt(fault, 0) ==> r == Fail(DbFailure) && db.campaigns == old(db.campaigns)
    ensures !FailsAt(fault, 0) ==> r == Pass && db.campaigns == BumpAll(start, Ids(done + [campaign]))
  {
    BumpStep(start, done, campaign);
    r := CampaignRepo.UpdateCustomerCountCampaign(db, campaign, fault);
  }

  /** The totals are the bases plus the bonuses of `done`. */
  ghost predicate Tallied(basePoints: real, baseCoins: real, totalPoints: real, totalCoins: real, done: seq<Campaign>)
  {
    totalPoints == basePoints + PointBonus(basePoints, done)
    && totalCoins == baseCoins + CoinBonus(baseCoins, done)
  }

  /** `totalPoints += basePoints * campaign.PointFactor` and the same for
      coins: after one more matched campaign the totals are still the bases
      plus the bonuses of everything matched so far. */
  method AddBonuses(basePoints: real, baseCoins: real, points: real, coins: real, campaign: Campaign,
                    ghost done: seq<Campaign>) returns (totalPoints: real, totalCoins: real)
    requires Tallied(basePoints, baseCoins, points, coins, done)
    ensures Tallied(basePoints, baseCoins, totalPoints, totalCoins, done + [campaign])
  {
    BonusStep(basePoints, baseCoins, done, campaign);
    totalPoints := points + basePoints * campaign.pointFactor;
    totalCoins := coins + baseCoins * campaign.coinFactor;
  }

  lemma BumpStep(cs: seq<Campaign>, done: seq<Campaign>, c: Campaign)
    ensures Ids(done + [c]) == Ids(done) + [c.id]
    ensures BumpAll(cs, Ids(done) + [c.id]) == Bump(BumpAll(cs, Ids(done)), c.id)
  {
    assert (done + [c])[..|done|] == done;
    assert (Ids(done) + [c.id])[..|done|] == Ids(done);
  }

  lemma BonusStep(bp: real, bc: real, done: seq<Campaign>, c: Campaign)
    ensures PointBonus(bp, done + [c]) == PointBonus(bp, done) + bp * c.pointFactor
    ensures CoinBonus(bc, done + [c]) == CoinBonus(bc, done) + bc * c.coinFactor
  {
    assert (done + [c])[..|done|] == done;
  }

  // ---- what a purchase credits ---------------------------------------------

  /** Every branch is linked to its brand's base campaign and the branch query
      does not leave "base" out, so a purchase inside the base campaign's
      windows gets the base factors a second time, as a bonus. */
  lemma BaseAlsoBonus(ls: seq<Link>, cs: seq<Campaign>, p: Purchase)
    requires SerialCampaigns(cs)
    requires FindBase(cs, p.brandId).Some?
    requires Link(FindBase(cs, p.brandId).value.id, p.branchId) in ls
    requires Matches(FindBase(cs, p.brandId).value, p.amount, p.purchaseDate)
    ensures FindBase(cs, p.brandId).value in PurchaseMatches(ls, cs, p)
  {
    SerialUnique(cs);
    ForBranchMembers(ls, cs, p.branchId, FindBase(cs, p.brandId).value);
  }

  /** No link row occurs twice. */
  predicate DistinctLinks(ls: seq<Link>)
  {
    forall i, j :: 0 <= i < j < |ls| ==> ls[i] != ls[j]
  }

  /** No two campaigns of the list share an id. */
  predicate DistinctIds(ms: seq<Campaign>)
  {
    forall i, j :: 0 <= i < j < |ms| ==> ms[i].id != ms[j].id
  }

  lemma {:induction false} ForBranchDistinct(ls: seq<Link>, cs: seq<Campaign>, branchId: int)
    requires UniqueIds(cs) && DistinctLinks(ls)
    ensures DistinctIds(ForBranch(ls, cs, branchId))
  {
    if ls != [] {
      var rest := ForBranch(ls[1..], cs, branchId);
      assert DistinctLinks(ls[1..]) by {
        forall i, j | 0 <= i < j < |ls[1..]| ensures ls[1..][i] != ls[1..][j] {
          assert ls[1..][i] == ls[i + 1] && ls[1..][j] == ls[j + 1];
        }
      }
      ForBranchDistinct(ls[1..], cs, branchId);
      var c := FindCampaign(cs, ls[0].campaignId);
      if ls[0].branchId == branchId && c.Some? && c.value.status == ActiveStatus {
        forall k | 0 <= k < |rest| ensures rest[k].id != c.value.id {
          ForBranchMembers(ls[1..], cs, branchId, rest[k]);
          var j :| 0 <= j < |ls[1..]| && ls[1..][j] == Link(rest[k].id, branchId);
          assert ls[j + 1] == Link(rest[k].id, branchId) && ls[0] == Link(c.value.id, branchId);
        }
        assert ForBranch(ls, cs, branchId) == [c.value] + rest;
      } else {
        assert ForBranch(ls, cs, branchId) == rest;
      }
    }
  }

  lemma {:induction false} MatchedDistinct(cs: seq<Campaign>, amount: real, date: int)
    requires DistinctIds(cs)
    ensures DistinctIds(Matched(cs, amount, date))
  {
    if cs != [] {
      var front := cs[..|cs| - 1];
      var last := cs[|cs| - 1];
      MatchedDistinct(front, amount, date);
      var done := Matched(front, amount, date);
      forall k | 0 <= k < |done| ensures done[k].id != last.id {
        assert done[k] in front;
        var j :| 0 <= j < |front| && front[j] == done[k];
        assert cs[j] == done[k];
      }
    }
  }

  /** A list without repeats holds each value once, or not at all. */
  lemma {:induction false} DistinctCount(ms: seq<Campaign>, id: int)
    requires DistinctIds(ms)
    ensures multiset(Ids(ms))[id] == if id in Ids(ms) then 1 else 0
  {
    if ms != [] {
      var front := ms[..|ms| - 1];
      assert Ids(ms) == Ids(front) + [ms[|ms| - 1].id];
      DistinctCount(front, id);
      if id == ms[|ms| - 1].id {
        assert id !in Ids(front);
      }
    }
  }

  /** With no repeated link rows every matched campaign is incremented exactly
      once and every other campaign is left as it was. */
  lemma CountedOnce(ls: seq<Link>, cs: seq<Campaign>, p: Purchase)
    requires SerialCampaigns(cs) && DistinctLinks(ls)
    ensures var ms := PurchaseMatches(ls, cs, p);
      forall i :: 0 <= i < |cs| ==>
        BumpAll(cs, Ids(ms))[i]
          == cs[i].(customerCount := cs[i].customerCount + if cs[i].id in Ids(ms) then 1 else 0)
  {
    var ms := PurchaseMatches(ls, cs, p);
    SerialUnique(cs);
    ForBranchDistinct(ls, cs, p.branchId);
    MatchedDistinct(ForBranch(ls, cs, p.branchId), p.amount, p.purchaseDate);
    BumpAllCounts(cs, Ids(ms));
    forall i | 0 <= i < |cs| ensures multiset(Ids(ms))[cs[i].id] == if cs[i].id in Ids(ms) then 1 else 0 {
      DistinctCount(ms, cs[i].id);
    }
  }

  /** A brand just onboarded (its base campaign is row 1) with one branch
      (linked to it): a purchase of 1,000,000 inside the base windows earns
      1000 base points and coins plus 1 more of each from the base campaign
      counted again as a bonus. */
  lemma FreshBranchPurchase(p: Purchase)
    requires p.amount == 1000000.0
    requires BrandUsecases.Jan2000 <= p.purchaseDate <= BrandUsecases.Jan2100
    ensures var cs := [CampaignRepo.Stored(BrandUsecases.BaseCampaign(p.brandId), 1)];
      var ms := PurchaseMatches([Link(1, p.branchId)], cs, p);
      ms == cs
      && Accrue(p, cs[0], ms) == LealPointsApply(p.customerId, p.brandId, 1001, 1001, "purchase")
  {
    var cs := [CampaignRepo.Stored(BrandUsecases.BaseCampaign(p.brandId), 1)];
    var ls := [Link(1, p.branchId)];
    assert ForBranch(ls, cs, p.branchId) == cs;
    assert cs[..0] == [];
    var ms := PurchaseMatches(ls, cs, p);
    assert ms == cs;
    assert ms[..0] == [];
    AccrueSpec(p, cs[0], ms);
    assert PointFactors(ms) == 0.001 && CoinFactors(ms) == 0.001;
    assert BasePoints(p, cs[0]) == 1000.0;
  }
}
