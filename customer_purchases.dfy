/** `purchaseService` of the customer service: a purchase paid partly in
    `leal_coins`. */
module CustomerPurchases {
  import opened Wrappers
  import opened Messages
  import opened CustomerStore
  import CustomerRepo
  import CoinsRepo
  import PurchasesRepo
  import CustomerEvents

  /** `ProcessPurchase`: the customer lookup and the coins guard come before
      any write; then the coin debit, the purchase row and the purchase
      message, in that order, a failure of one leaving the earlier ones
      behind. The result is the recorded purchase, with its id and date. */
  method ProcessPurchase(db: CustomerDb, p: Purchase, now: int, lookupFault: Fault, coinsFault: Fault,
                         recordFault: Fault, sendFault: Fault) returns (r: Result<Purchase>)
    requires db.Valid()
    modifies db
    ensures db.Valid()
    ensures db.points == old(db.points) && db.transactions == old(db.transactions)
    ensures db.redemptions == old(db.redemptions)
    ensures FailsAt(lookupFault, 0) ==>
      r == Err(DbFailure)
      && db.customers == old(db.customers) && db.purchases == old(db.purchases) && db.outbox == old(db.outbox)
    ensures !FailsAt(lookupFault, 0) && FindCustomer(old(db.customers), p.customerId).None? ==>
      r == Err(NoRows)
      && db.customers == old(db.customers) && db.purchases == old(db.purchases) && db.outbox == old(db.outbox)
    ensures !FailsAt(lookupFault, 0) && FindCustomer(old(db.customers), p.customerId).Some?
            && FindCustomer(old(db.customers), p.customerId).value.lealCoins < p.coinsUsed ==>
      r == Err(Failure("not enough coins"))
      && db.customers == old(db.customers) && db.purchases == old(db.purchases) && db.outbox == old(db.outbox)
    ensures !FailsAt(lookupFault, 0) && FindCustomer(old(db.customers), p.customerId).Some?
            && FindCustomer(old(db.customers), p.customerId).value.lealCoins >= p.coinsUsed ==>
      var recorded := p.(id := |old(db.purchases)| + 1, purchaseDate := now);
      if FailsAt(coinsFault, 0) then
        r == Err(DbFailure)
        && db.customers == old(db.customers) && db.purchases == old(db.purchases) && db.outbox == old(db.outbox)
      else
        db.customers == AddLealCoins(old(db.customers), p.customerId, -p.coinsUsed)
        && (FailsAt(recordFault, 0) ==>
              r == Err(DbFailure) && db.purchases == old(db.purchases) && db.outbox == old(db.outbox))
        && (!FailsAt(recordFault, 0) ==>
              db.purchases == old(db.purchases) + [recorded]
              && (FailsAt(sendFault, 0) ==>
                    r == Err(Failure("failed to send apply points event")) && db.outbox == old(db.outbox))
              && (!FailsAt(sendFault, 0) ==>
                    r == Ok(recorded) && db.outbox == old(db.outbox) + [PurchaseMsg(db.purchaseTopic, recorded)]))
  {
    var customer := CustomerRepo.GetCustomerByID(db, p.customerId, lookupFault);
    if customer.Err? {
      return Err(customer.error);
    }
    if customer.value.lealCoins < p.coinsUsed {
      return Err(Failure("not enough coins"));
    }
    var debited := CoinsRepo.UpdateCustomerCoins(db, p.customerId, -p.coinsUsed, coinsFault);
    if debited.Fail? {
      return Err(debited.error);
    }
    var recorded := PurchasesRepo.RecordPurchase(db, p, now, recordFault);
    if recorded.Err? {
      return Err(recorded.error);
    }
    var sent := CustomerEvents.SendPurchaseEvent(db, recorded.value, sendFault);
    if sent.Fail? {
      return Err(Failure("failed to send apply points event"));
    }
    return recorded;
  }

  /** A debit the guard lets through is never floored: the balance drops by
      exactly the coins used. The guard does not exclude a negative amount,
      which then raises the balance. */
  lemma GuardedDebit(cs: seq<Customer>, customerId: int, coinsUsed: int)
    requires SerialCustomers(cs)
    requires FindCustomer(cs, customerId).Some? && FindCustomer(cs, customerId).value.lealCoins >= coinsUsed
    ensures var before := FindCustomer(cs, customerId).value.lealCoins;
      var after := FindCustomer(AddLealCoins(cs, customerId, -coinsUsed), customerId);
      after.Some? && after.value.lealCoins == before - coinsUsed
      && (coinsUsed < 0 ==> after.value.lealCoins > before)
  {
    AddLealCoinsFloor(cs, customerId, -coinsUsed);
  }
}
