/** `redeemService` of the customer service: spending points of one brand
    on a reward. */
module Redeems {
  import opened Wrappers
  import opened CustomerStore
  import PointsRepo
  import RedeemedRepo

  /** `RedeemReward`: the balance lookup (a missing balance is the lookup's
      `sql.ErrNoRows`) and the points guard come before any write; then the
      debit, the ledger row (minus the spend, "Redeem reward") and the
      redemption row, a failure of one leaving the earlier ones behind. */
  method RedeemReward(db: CustomerDb, rd: Redeemed, now: int, lookupFault: Fault, pointsFault: Fault,
                      txFault: Fault, redeemFault: Fault) returns (r: Result<Redeemed>)
    requires db.Valid()
    modifies db
    ensures db.Valid()
    ensures db.customers == old(db.customers) && db.purchases == old(db.purchases) && db.outbox == old(db.outbox)
    ensures FailsAt(lookupFault, 0) ==>
      r == Err(DbFailure)
      && db.points == old(db.points) && db.transactions == old(db.transactions) && db.redemptions == old(db.redemptions)
    ensures !FailsAt(lookupFault, 0) && Balance(old(db.points), rd.customerId, rd.brandId).None? ==>
      r == Err(NoRows)
      && db.points == old(db.points) && db.transactions == old(db.transactions) && db.redemptions == old(db.redemptions)
    ensures !FailsAt(lookupFault, 0) && Balance(old(db.points), rd.customerId, rd.brandId).Some?
            && Balance(old(db.points), rd.customerId, rd.brandId).value < rd.pointsSpend ==>
      r == Err(Failure("not enough points"))
      && db.points == old(db.points) && db.transactions == old(db.transactions) && db.redemptions == old(db.redemptions)
    ensures !FailsAt(lookupFault, 0) && Balance(old(db.points), rd.customerId, rd.brandId).Some?
            && Balance(old(db.points), rd.customerId, rd.brandId).value >= rd.pointsSpend ==>
      var recorded := rd.(id := |old(db.redemptions)| + 1, date := now);
      if FailsAt(pointsFault, 0) then
        r == Err(DbFailure)
        && db.points == old(db.points) && db.transactions == old(db.transactions) && db.redemptions == old(db.redemptions)
      else
        db.points == Upsert(old(db.points), rd.customerId, rd.brandId, -rd.pointsSpend, |old(db.points)| + 1)
        && (FailsAt(txFault, 0) ==>
              r == Err(DbFailure) && db.transactions == old(db.transactions) && db.redemptions == old(db.redemptions))
        && (!FailsAt(txFault, 0) ==>
              db.transactions == old(db.transactions)
                + [Transaction(|old(db.transactions)| + 1, rd.customerId, rd.brandId, -rd.pointsSpend, "Redeem reward")]
              && (FailsAt(redeemFault, 0) ==> r == Err(DbFailure) && db.redemptions == old(db.redemptions))
              && (!FailsAt(redeemFault, 0) ==>
                    r == Ok(recorded) && db.redemptions == old(db.redemptions) + [recorded]))
  {
    var points := PointsRepo.GetPoinysByCustomerIDAndBrandID(db, rd.customerId, rd.brandId, lookupFault);
    if points.Err? {
      return Err(points.error);
    }
    if points.value.points < rd.pointsSpend {
      return Err(Failure("not enough points"));
    }
    var debited := PointsRepo.UpdatePoints(db, rd.customerId, rd.brandId, -rd.pointsSpend, pointsFault);
    if debited.Fail? {
      return Err(debited.error);
    }
    var logged := PointsRepo.RecordPointsTransaction(db, rd.customerId, rd.brandId, -rd.pointsSpend, "Redeem reward", txFault);
    if logged.Fail? {
      return Err(logged.error);
    }
    r := RedeemedRepo.RedeemReward(db, rd, now, redeemFault);
  }

  /** A spend the guard lets through is never floored: the balance drops by
      exactly the spend. The guard does not exclude a negative spend, which
      then raises the balance. */
  lemma GuardedSpend(ps: seq<LealPoints>, customerId: int, brandId: int, spend: int)
    requires Balance(ps, customerId, brandId).Some? && Balance(ps, customerId, brandId).value >= spend
    ensures var before := Balance(ps, customerId, brandId).value;
      var after := Balance(Upsert(ps, customerId, brandId, -spend, |ps| + 1), customerId, brandId);
      after == Some(before - spend) && (spend < 0 ==> after.value > before)
  {
    UpsertBalance(ps, customerId, brandId, -spend, |ps| + 1, customerId, brandId);
  }
}
