/** The customer service's database (`customer`, `leal_points`,
    `leal_points_transactions`, `purchase`, `redeemed`) and its outgoing
    messages, as one object; and the pure table functions the repositories
    are specified with. */
module CustomerStore {
  import opened Wrappers
  import opened Messages

  /** A row of `customer`: the entity's fields and the `coins` column, which
      `RecordCoins` updates and the entity does not carry. Dates are Unix
      seconds. */
  datatype Customer = Customer(id: int, name: string, email: string, phone: string, passHash: string,
                               token: string, lealCoins: int, coins: int, registrationDate: int)

  /** A row of `leal_points`, unique on (customer, brand). */
  datatype LealPoints = LealPoints(id: int, customerId: int, brandId: int, points: int)

  /** A row of `leal_points_transactions`. */
  datatype Transaction = Transaction(id: int, customerId: int, brandId: int, change: int, reason: string)

  /** A row of `redeemed`. */
  datatype Redeemed = Redeemed(id: int, customerId: int, brandId: int, rewardId: int, pointsSpend: int, date: int)

  predicate SerialCustomers(cs: seq<Customer>)
  {
    forall i :: 0 <= i < |cs| ==> cs[i].id == i + 1
  }

  /** The `ON CONFLICT (customer_id, brand_id)` key: no two rows share it. */
  predicate UniqueKeys(ps: seq<LealPoints>)
  {
    forall i, j ::
      0 <= i < |ps| && 0 <= j < |ps| && ps[i].customerId == ps[j].customerId && ps[i].brandId == ps[j].brandId ==>
        i == j
  }

  class CustomerDb {
    var customers: seq<Customer>
    var points: seq<LealPoints>
    var transactions: seq<Transaction>
    var purchases: seq<Purchase>
    var redemptions: seq<Redeemed>
    /** Messages handed to the producer, oldest first. */
    var outbox: seq<Message>
    /** `MsgPurchaseTopic` of the service configuration. */
    const purchaseTopic: string

    ghost predicate Valid()
      reads this
    {
      SerialCustomers(customers) && UniqueKeys(points)
    }

    constructor (purchaseTopic: string)
      ensures Valid() && this.purchaseTopic == purchaseTopic
      ensures customers == [] && points == [] && transactions == [] && purchases == []
      ensures redemptions == [] && outbox == []
    {
      this.purchaseTopic := purchaseTopic;
      customers, points, transactions, purchases, redemptions, outbox := [], [], [], [], [], [];
    }
  }

  // ---- customer rows ----------------------------------------------------------

  /** `... FROM customer WHERE id = $1`. */
  function FindCustomer(cs: seq<Customer>, id: int): (r: Option<Customer>)
    ensures r.Some? ==> r.value in cs && r.value.id == id
    ensures r.None? <==> forall i :: 0 <= i < |cs| ==> cs[i].id != id
  {
    if cs == [] then None else if cs[0].id == id then Some(cs[0]) else FindCustomer(cs[1..], id)
  }

  /** `... FROM customer WHERE email = $1`: the first such row. */
  function FindCustomerByEmail(cs: seq<Customer>, email: string): (r: Option<Customer>)
    ensures r.Some? ==> r.value in cs && r.value.email == email
    ensures r.None? <==> forall i :: 0 <= i < |cs| ==> cs[i].email != email
  {
    if cs == [] then None else if cs[0].email == email then Some(cs[0]) else FindCustomerByEmail(cs[1..], email)
  }

  /** A new row is found by its email exactly when no earlier row has it. */
  lemma {:induction false} FindByEmailAppend(cs: seq<Customer>, row: Customer, email: string)
    ensures FindCustomerByEmail(cs + [row], email) ==
      if FindCustomerByEmail(cs, email).Some? then FindCustomerByEmail(cs, email)
      else if row.email == email then Some(row)
      else None
  {
    if cs != [] {
      assert (cs + [row])[1..] == cs[1..] + [row];
      FindByEmailAppend(cs[1..], row, email);
    }
  }

  lemma {:induction false} FindCustomerFirst(cs: seq<Customer>, k: nat)
    requires k < |cs|
    requires forall j :: 0 <= j < k ==> cs[j].id != cs[k].id
    ensures FindCustomer(cs, cs[k].id) == Some(cs[k])
  {
    if k > 0 {
      FindCustomerFirst(cs[1..], k - 1);
    }
  }

  /** In a serial table the row with id `k + 1` is the `k`-th. */
  lemma FindCustomerSerial(cs: seq<Customer>, k: nat)
    requires SerialCustomers(cs) && k < |cs|
    ensures FindCustomer(cs, k + 1) == Some(cs[k])
  {
    FindCustomerFirst(cs, k);
  }

  /** The `domain.Customer` a `SELECT id, customer_name, email, phone,
      pass_hash, token, leal_coins` scans from a row: no `coins` column, and
      the registration date is not selected (0 stands for Go's zero time). */
  function Loaded(c: Customer): Customer
  {
    c.(coins := 0, registrationDate := 0)
  }

  /** `UPDATE customer SET token = $1 WHERE id = $2`. */
  function SetToken(cs: seq<Customer>, id: int, token: string): (r: seq<Customer>)
    ensures |r| == |cs|
    ensures forall i :: 0 <= i < |cs| ==> r[i] == if cs[i].id == id then cs[i].(token := token) else cs[i]
  {
    seq(|cs|, i requires 0 <= i < |cs| => if cs[i].id == id then cs[i].(token := token) else cs[i])
  }

  /** The token update rewrites the token of that customer alone. */
  lemma SetTokenFind(cs: seq<Customer>, id: int, token: string, x: int)
    requires SerialCustomers(cs)
    ensures SerialCustomers(SetToken(cs, id, token))
    ensures FindCustomer(cs, x).None? ==> FindCustomer(SetToken(cs, id, token), x).None?
    ensures FindCustomer(cs, x).Some? ==>
      0 <= x - 1 < |cs| && FindCustomer(cs, x) == Some(cs[x - 1])
      && FindCustomer(SetToken(cs, id, token), x) == Some(if x == id then cs[x - 1].(token := token) else cs[x - 1])
  {
    var t := SetToken(cs, id, token);
    assert SerialCustomers(t);
    if FindCustomer(cs, x).Some? {
      assert 0 <= x - 1 < |cs|;
      FindCustomerSerial(cs, x - 1);
      FindCustomerSerial(t, x - 1);
    }
  }

  /** `UPDATE customer SET leal_coins = GREATEST(leal_coins + $1, 0) WHERE id = $2`. */
  function AddLealCoins(cs: seq<Customer>, id: int, delta: int): (r: seq<Customer>)
    ensures |r| == |cs|
    ensures forall i :: 0 <= i < |cs| ==>
      r[i] == if cs[i].id == id then cs[i].(lealCoins := Greatest0(cs[i].lealCoins + delta)) else cs[i]
  {
    seq(|cs|, i requires 0 <= i < |cs| =>
      if cs[i].id == id then cs[i].(lealCoins := Greatest0(cs[i].lealCoins + delta)) else cs[i])
  }

  /** `UPDATE customer SET coins = coins + $1 WHERE id = $2`: no floor. */
  function AddCoins(cs: seq<Customer>, id: int, delta: int): (r: seq<Customer>)
    ensures |r| == |cs|
    ensures forall i :: 0 <= i < |cs| ==>
      r[i] == if cs[i].id == id then cs[i].(coins := cs[i].coins + delta) else cs[i]
  {
    seq(|cs|, i requires 0 <= i < |cs| => if cs[i].id == id then cs[i].(coins := cs[i].coins + delta) else cs[i])
  }

  lemma AddLealCoinsSerial(cs: seq<Customer>, id: int, delta: int)
    requires SerialCustomers(cs)
    ensures SerialCustomers(AddLealCoins(cs, id, delta))
    ensures FindCustomer(cs, id).Some? ==> 0 <= id - 1 < |cs|
  {
  }

  /** The `coins` update moves that column of the customer alone: the
      loyalty balance and every other customer stay. */
  lemma AddCoinsOnly(cs: seq<Customer>, id: int, delta: int)
    requires SerialCustomers(cs)
    ensures SerialCustomers(AddCoins(cs, id, delta))
    ensures FindCustomer(cs, id).None? ==> AddCoins(cs, id, delta) == cs
    ensures FindCustomer(cs, id).Some? ==>
      0 <= id - 1 < |cs| && FindCustomer(cs, id) == Some(cs[id - 1])
      && FindCustomer(AddCoins(cs, id, delta), id) == Some(cs[id - 1].(coins := cs[id - 1].coins + delta))
  {
    var r := AddCoins(cs, id, delta);
    AddCoinsSerial(cs, id, delta);
    if FindCustomer(cs, id).Some? {
      FindCustomerSerial(cs, id - 1);
      FindCustomerSerial(r, id - 1);
    } else {
      assert forall i :: 0 <= i < |cs| ==> r[i] == cs[i];
    }
  }

  lemma AddCoinsSerial(cs: seq<Customer>, id: int, delta: int)
    requires SerialCustomers(cs)
    ensures SerialCustomers(AddCoins(cs, id, delta))
    ensures FindCustomer(cs, id).Some? ==> 0 <= id - 1 < |cs|
  {
  }

  /** After the coin update the customer's `leal_coins` is never negative,
      whatever the sign of the delta, it is the old balance plus the delta
      when that is not negative, and no other row moves. */
  lemma AddLealCoinsFloor(cs: seq<Customer>, id: int, delta: int)
    requires SerialCustomers(cs)
    ensures SerialCustomers(AddLealCoins(cs, id, delta))
    ensures FindCustomer(cs, id).None? ==> AddLealCoins(cs, id, delta) == cs
    ensures FindCustomer(cs, id).Some? ==>
      0 <= id - 1 < |cs| && FindCustomer(cs, id) == Some(cs[id - 1])
      && FindCustomer(AddLealCoins(cs, id, delta), id)
           == Some(cs[id - 1].(lealCoins := Greatest0(cs[id - 1].lealCoins + delta)))
      && Greatest0(cs[id - 1].lealCoins + delta) >= 0
      && (cs[id - 1].lealCoins + delta >= 0 ==> Greatest0(cs[id - 1].lealCoins + delta) == cs[id - 1].lealCoins + delta)
  {
    var r := AddLealCoins(cs, id, delta);
    AddLealCoinsSerial(cs, id, delta);
    if FindCustomer(cs, id).Some? {
      FindCustomerSerial(cs, id - 1);
      FindCustomerSerial(r, id - 1);
    } else {
      assert forall i :: 0 <= i < |cs| ==> r[i] == cs[i];
    }
  }

  // ---- points rows --------------------------------------------------------------

  /** The row of `leal_points` for (customer, brand), if any. */
  function FindPoints(ps: seq<LealPoints>, customerId: int, brandId: int): (r: Option<LealPoints>)
    ensures r.Some? ==> r.value in ps && r.value.customerId == customerId && r.value.brandId == brandId
    ensures r.None? <==> forall i :: 0 <= i < |ps| ==> !(ps[i].customerId == customerId && ps[i].brandId == brandId)
  {
    if ps == [] then None
    else if ps[0].customerId == customerId && ps[0].brandId == brandId then Some(ps[0])
    else FindPoints(ps[1..], customerId, brandId)
  }

  lemma {:induction false} FindPointsFirst(ps: seq<LealPoints>, k: nat)
    requires k < |ps|
    requires forall j :: 0 <= j < k ==> !(ps[j].customerId == ps[k].customerId && ps[j].brandId == ps[k].brandId)
    ensures FindPoints(ps, ps[k].customerId, ps[k].brandId) == Some(ps[k])
  {
    if k > 0 {
      FindPointsFirst(ps[1..], k - 1);
    }
  }

  /** The balance of (customer, brand): the stored points, None with no row. */
  function Balance(ps: seq<LealPoints>, customerId: int, brandId: int): Option<int>
  {
    var row := FindPoints(ps, customerId, brandId);
    if row.None? then None else Some(row.value.points)
  }

  /** `INSERT ... VALUES ($1, $2, GREATEST($3, 0)) ON CONFLICT (customer_id,
      brand_id) DO UPDATE SET points = GREATEST(leal_points.points + $3, 0)`:
      the key's row is updated in place, or a new row with serial id `id` is
      appended. */
  function Upsert(ps: seq<LealPoints>, customerId: int, brandId: int, delta: int, id: int): (r: seq<LealPoints>)
    ensures |ps| <= |r| <= |ps| + 1
  {
    if ps == [] then [LealPoints(id, customerId, brandId, Greatest0(delta))]
    else if ps[0].customerId == customerId && ps[0].brandId == brandId then
      [ps[0].(points := Greatest0(ps[0].points + delta))] + ps[1..]
    else [ps[0]] + Upsert(ps[1..], customerId, brandId, delta, id)
  }

  /** The upsert's balance: `max(delta, 0)` for a new key, `max(old + delta, 0)`
      for an existing one; every other key keeps its balance. */
  lemma {:induction false} UpsertBalance(ps: seq<LealPoints>, customerId: int, brandId: int, delta: int, id: int,
                                         c: int, b: int)
    ensures Balance(Upsert(ps, customerId, brandId, delta, id), c, b) ==
      if c == customerId && b == brandId then
        Some(if Balance(ps, c, b).None? then Greatest0(delta) else Greatest0(Balance(ps, c, b).value + delta))
      else Balance(ps, c, b)
  {
    if ps != [] && !(ps[0].customerId == customerId && ps[0].brandId == brandId) {
      UpsertBalance(ps[1..], customerId, brandId, delta, id, c, b);
    }
  }

  /** A balance that exists after the upsert is never negative if none was
      before it. */
  lemma UpsertNonNegative(ps: seq<LealPoints>, customerId: int, brandId: int, delta: int, id: int)
    ensures Balance(Upsert(ps, customerId, brandId, delta, id), customerId, brandId).Some?
    ensures Balance(Upsert(ps, customerId, brandId, delta, id), customerId, brandId).value >= 0
  {
    UpsertBalance(ps, customerId, brandId, delta, id, customerId, brandId);
  }

  lemma {:induction false} UpsertKeys(ps: seq<LealPoints>, customerId: int, brandId: int, delta: int, id: int,
                                      row: LealPoints)
    ensures row in Upsert(ps, customerId, brandId, delta, id) ==>
      (row.customerId == customerId && row.brandId == brandId)
      || exists i :: 0 <= i < |ps| && ps[i] == row
  {
    if ps != [] && !(ps[0].customerId == customerId && ps[0].brandId == brandId) {
      UpsertKeys(ps[1..], customerId, brandId, delta, id, row);
    }
  }

  /** The upsert keeps the (customer, brand) key unique. */
  lemma {:induction false} UpsertUnique(ps: seq<LealPoints>, customerId: int, brandId: int, delta: int, id: int)
    requires UniqueKeys(ps)
    ensures UniqueKeys(Upsert(ps, customerId, brandId, delta, id))
  {
    if ps == [] {
    } else if ps[0].customerId == customerId && ps[0].brandId == brandId {
      var r := Upsert(ps, customerId, brandId, delta, id);
      assert forall i :: 0 < i < |r| ==> r[i] == ps[i];
    } else {
      var rest := Upsert(ps[1..], customerId, brandId, delta, id);
      assert UniqueKeys(ps[1..]) by {
        forall i, j | 0 <= i < |ps[1..]| && 0 <= j < |ps[1..]| && ps[1..][i].customerId == ps[1..][j].customerId
          && ps[1..][i].brandId == ps[1..][j].brandId
          ensures i == j
        {
          assert ps[1..][i] == ps[i + 1] && ps[1..][j] == ps[j + 1];
        }
      }
      UpsertUnique(ps[1..], customerId, brandId, delta, id);
      forall k | 0 <= k < |rest| ensures !(rest[k].customerId == ps[0].customerId && rest[k].brandId == ps[0].brandId) {
        UpsertKeys(ps[1..], customerId, brandId, delta, id, rest[k]);
      }
      assert Upsert(ps, customerId, brandId, delta, id) == [ps[0]] + rest;
    }
  }

  /** The columns `GetPointsByCustomerID` selects of one row: customer, brand
      and points; the id is not read. */
  function Selected(row: LealPoints): LealPoints
  {
    LealPoints(0, row.customerId, row.brandId, row.points)
  }

  /** `... FROM leal_points WHERE customer_id = $1`, in table order. */
  function PointsOf(ps: seq<LealPoints>, customerId: int): (r: seq<LealPoints>)
    ensures |r| <= |ps|
    ensures forall i :: 0 <= i < |r| ==> r[i].customerId == customerId && r[i].id == 0
  {
    if ps == [] then []
    else
      PointsOf(ps[..|ps| - 1], customerId)
      + (if ps[|ps| - 1].customerId == customerId then [Selected(ps[|ps| - 1])] else [])
  }

  /** All and only the customer's rows come back. */
  lemma {:induction false} PointsOfMembers(ps: seq<LealPoints>, customerId: int, x: LealPoints)
    ensures x in PointsOf(ps, customerId) <==>
      exists i :: 0 <= i < |ps| && ps[i].customerId == customerId && Selected(ps[i]) == x
  {
    if ps != [] {
      var front := ps[..|ps| - 1];
      PointsOfMembers(front, customerId, x);
      if exists i :: 0 <= i < |ps| && ps[i].customerId == customerId && Selected(ps[i]) == x {
        var i :| 0 <= i < |ps| && ps[i].customerId == customerId && Selected(ps[i]) == x;
        if i < |front| {
          assert front[i] == ps[i];
        }
      }
      if exists i :: 0 <= i < |front| && front[i].customerId == customerId && Selected(front[i]) == x {
        var i :| 0 <= i < |front| && front[i].customerId == customerId && Selected(front[i]) == x;
        assert ps[i] == front[i];
      }
    }
  }

  /** Each row the per-customer listing returns carries the balance the
      (customer, brand) lookup finds. */
  lemma PointsOfBalance(ps: seq<LealPoints>, customerId: int, x: LealPoints)
    requires UniqueKeys(ps)
    requires x in PointsOf(ps, customerId)
    ensures x.id == 0 && x.customerId == customerId
    ensures Balance(ps, customerId, x.brandId) == Some(x.points)
  {
    PointsOfMembers(ps, customerId, x);
    var i :| 0 <= i < |ps| && ps[i].customerId == customerId && Selected(ps[i]) == x;
    FindPointsFirst(ps, i);
  }
}
