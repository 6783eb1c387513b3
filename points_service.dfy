/** `pointService` of the customer service: reading a customer's balances
    and adjusting one of them by hand. */
module PointsService {
  import opened Wrappers
  import opened CustomerStore
  import PointsRepo

  /** `GetCustomerPoints`: every (brand, points) balance of the customer. */
  method GetCustomerPoints(db: CustomerDb, customerId: int, fault: Fault) returns (r: Result<seq<LealPoints>>)
    ensures FailsAt(fault, 0) ==> r == Err(DbFailure)
    ensures !FailsAt(fault, 0) ==> r == Ok(PointsOf(db.points, customerId))
  {
    r := PointsRepo.GetPointsByCustomerID(db, customerId, fault);
  }

  /** `UpdatePoints`: the ledger row (the delta, the given reason), then the
      points upsert, then the same delta added to the `coins` column, each
      stopping the run when it fails. */
  method UpdatePoints(db: CustomerDb, customerId: int, brandId: int, delta: int, reason: string,
                      txFault: Fault, pointsFault: Fault, coinsFault: Fault) returns (r: Outcome)
    requires db.Valid()
    modifies db
    ensures db.Valid()
    ensures db.purchases == old(db.purchases) && db.redemptions == old(db.redemptions) && db.outbox == old(db.outbox)
    ensures FailsAt(txFault, 0) ==>
      r == Fail(DbFailure)
      && db.transactions == old(db.transactions) && db.points == old(db.points) && db.customers == old(db.customers)
    ensures !FailsAt(txFault, 0) ==>
      db.transactions == old(db.transactions) + [Transaction(|old(db.transactions)| + 1, customerId, brandId, delta, reason)]
      && (FailsAt(pointsFault, 0) ==>
            r == Fail(DbFailure) && db.points == old(db.points) && db.customers == old(db.customers))
      && (!FailsAt(pointsFault, 0) ==>
            db.points == Upsert(old(db.points), customerId, brandId, delta, |old(db.points)| + 1)
            && (FailsAt(coinsFault, 0) ==> r == Fail(DbFailure) && db.customers == old(db.customers))
            && (!FailsAt(coinsFault, 0) ==> r == Pass && db.customers == AddCoins(old(db.customers), customerId, delta)))
  {
    r := PointsRepo.RecordPointsTransaction(db, customerId, brandId, delta, reason, txFault);
    if r.Fail? {
      return;
    }
    r := PointsRepo.UpdatePoints(db, customerId, brandId, delta, pointsFault);
    if r.Fail? {
      return;
    }
    r := PointsRepo.RecordCoins(db, customerId, delta, coinsFault);
  }

  /** A hand adjustment of a customer with an existing balance moves that
      balance to `max(old + delta, 0)` and the `coins` column by the delta,
      unfloored, while `leal_coins` stays. */
  lemma Adjusted(ps: seq<LealPoints>, cs: seq<Customer>, customerId: int, brandId: int, delta: int)
    requires SerialCustomers(cs)
    requires Balance(ps, customerId, brandId).Some? && FindCustomer(cs, customerId).Some?
    ensures Balance(Upsert(ps, customerId, brandId, delta, |ps| + 1), customerId, brandId)
      == Some(Greatest0(Balance(ps, customerId, brandId).value + delta))
    ensures var before := FindCustomer(cs, customerId).value;
      var after := FindCustomer(AddCoins(cs, customerId, delta), customerId).value;
      after.coins == before.coins + delta && after.lealCoins == before.lealCoins
  {
    UpsertBalance(ps, customerId, brandId, delta, |ps| + 1, customerId, brandId);
    AddCoinsOnly(cs, customerId, delta);
  }
}
