/** The records that travel between the two services over the message broker:
    a purchase (customer service to brand service) and an apply-points order
    (brand service to customer service). Both services declare the same two
    structs in their `domain/entities.go`. */
module Messages {

  /** `domain.Purchase`. Amounts are exact reals; the purchase date is in
      Unix seconds. */
  datatype Purchase = Purchase(
    id: int,
    customerId: int,
    amount: real,
    purchaseDate: int,
    brandId: int,
    branchId: int,
    coinsUsed: int)

  /** `domain.LealPointsApply`: points and coins to credit (or debit) to one
      customer for one brand. */
  datatype LealPointsApply = LealPointsApply(
    customerId: int,
    brandId: int,
    points: int,
    coins: int,
    reason: string)

  /** One message handed to the producer: the topic and the payload. */
  datatype Message =
    | ApplyPointsMsg(topic: string, event: LealPointsApply)
    | PurchaseMsg(topic: string, purchase: Purchase)
}
