/** `AppService` of the customer service: applying an apply-points order
    that arrives from the brand service, and handing a purchase to the
    producer. */
module CustomerEvents {
  import opened Wrappers
  import opened Messages
  import opened CustomerStore
  import PointsRepo
  import CoinsRepo

  /** `ProcessApplyPointsEvent`: the ledger row (change = the order's points,
      its reason), then the points upsert, then the `leal_coins` update, each
      stopping the run when it fails and leaving the earlier writes behind. */
  method ProcessApplyPointsEvent(db: CustomerDb, e: LealPointsApply, txFault: Fault, pointsFault: Fault,
                                 coinsFault: Fault) returns (r: Outcome)
    requires db.Valid()
    modifies db
    ensures db.Valid()
    ensures db.purchases == old(db.purchases) && db.redemptions == old(db.redemptions) && db.outbox == old(db.outbox)
    ensures FailsAt(txFault, 0) ==>
      r == Fail(DbFailure)
      && db.transactions == old(db.transactions) && db.points == old(db.points) && db.customers == old(db.customers)
    ensures !FailsAt(txFault, 0) ==>
      db.transactions == old(db.transactions)
        + [Transaction(|old(db.transactions)| + 1, e.customerId, e.brandId, e.points, e.reason)]
      && (FailsAt(pointsFault, 0) ==>
            r == Fail(DbFailure) && db.points == old(db.points) && db.customers == old(db.customers))
      && (!FailsAt(pointsFault, 0) ==>
            db.points == Upsert(old(db.points), e.customerId, e.brandId, e.points, |old(db.points)| + 1)
            && (FailsAt(coinsFault, 0) ==> r == Fail(DbFailure) && db.customers == old(db.customers))
            && (!FailsAt(coinsFault, 0) ==>
                  r == Pass && db.customers == AddLealCoins(old(db.customers), e.customerId, e.coins)))
  {
    r := PointsRepo.RecordPointsTransaction(db, e.customerId, e.brandId, e.points, e.reason, txFault);
    if r.Fail? {
      return;
    }
    r := PointsRepo.UpdatePoints(db, e.customerId, e.brandId, e.points, pointsFault);
    if r.Fail? {
      return;
    }
    r := CoinsRepo.UpdateCustomerCoins(db, e.customerId, e.coins, coinsFault);
  }

  /** `SendPurchaseEvent`: the purchase, as it is, on the purchase topic. */
  method SendPurchaseEvent(db: CustomerDb, p: Purchase, fault: Fault) returns (r: Outcome)
    modifies db
    ensures db.customers == old(db.customers) && db.points == old(db.points) && db.transactions == old(db.transactions)
    ensures db.purchases == old(db.purchases) && db.redemptions == old(db.redemptions)
    ensures FailsAt(fault, 0) ==> r == Fail(SendFailure) && db.outbox == old(db.outbox)
    ensures !FailsAt(fault, 0) ==> r == Pass && db.outbox == old(db.outbox) + [PurchaseMsg(db.purchaseTopic, p)]
  {
    if FailsAt(fault, 0) {
      return Fail(SendFailure);
    }
    db.outbox := db.outbox + [PurchaseMsg(db.purchaseTopic, p)];
    return Pass;
  }

  /** A successful application moves the two balances of the order's
      customer: the (customer, brand) points become `max(old + points, 0)`
      (`max(points, 0)` for a first order) and `leal_coins` becomes
      `max(old + coins, 0)`; no other balance moves. */
  lemma Applied(ps: seq<LealPoints>, cs: seq<Customer>, e: LealPointsApply, c: int, b: int)
    requires SerialCustomers(cs)
    ensures var after := Balance(Upsert(ps, e.customerId, e.brandId, e.points, |ps| + 1), c, b);
      if c == e.customerId && b == e.brandId then
        after == Some(Greatest0(if Balance(ps, c, b).None? then e.points else Balance(ps, c, b).value + e.points))
      else after == Balance(ps, c, b)
    ensures FindCustomer(cs, e.customerId).Some? ==>
      var after := FindCustomer(AddLealCoins(cs, e.customerId, e.coins), e.customerId);
      after.Some? && after.value.lealCoins == Greatest0(FindCustomer(cs, e.customerId).value.lealCoins + e.coins)
  {
    UpsertBalance(ps, e.customerId, e.brandId, e.points, |ps| + 1, c, b);
    AppliedCoins(cs, e.customerId, e.coins);
  }

  lemma AppliedCoins(cs: seq<Customer>, id: int, coins: int)
    requires SerialCustomers(cs)
    ensures FindCustomer(cs, id).Some? ==>
      var after := FindCustomer(AddLealCoins(cs, id, coins), id);
      after.Some? && after.value.lealCoins == Greatest0(FindCustomer(cs, id).value.lealCoins + coins)
  {
    AddLealCoinsFloor(cs, id, coins);
  }

  /** Orders are not deduplicated: the same order with non-negative points
      delivered twice credits the points twice. */
  lemma RedeliveryCreditsTwice(ps: seq<LealPoints>, e: LealPointsApply, x: int)
    requires Balance(ps, e.customerId, e.brandId) == Some(x) && x >= 0 && e.points >= 0
    ensures var once := Upsert(ps, e.customerId, e.brandId, e.points, |ps| + 1);
      Balance(Upsert(once, e.customerId, e.brandId, e.points, |once| + 1), e.customerId, e.brandId)
        == Some(x + 2 * e.points)
  {
    var once := Upsert(ps, e.customerId, e.brandId, e.points, |ps| + 1);
    UpsertBalance(ps, e.customerId, e.brandId, e.points, |ps| + 1, e.customerId, e.brandId);
    UpsertBalance(once, e.customerId, e.brandId, e.points, |once| + 1, e.customerId, e.brandId);
  }
}
