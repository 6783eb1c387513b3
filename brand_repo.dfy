/** `postgresBrandRepo`: plain statements on the `brand` table that the brand
    use cases call. */
module BrandRepo {
  import opened Wrappers
  import opened BrandStore

  /** `CreateBrand`: inserts name, hash and token. The returned brand carries
      the new id, name, token and date but not the hash, which the Go code
      does not copy into it. */
  method CreateBrand(db: BrandDb, name: string, passHash: string, token: string, now: int, fault: Fault)
    returns (r: Result<Brand>)
    requires db.Valid()
    modifies db
    ensures db.Valid()
    ensures db.branches == old(db.branches) && db.campaigns == old(db.campaigns)
    ensures db.links == old(db.links) && db.outbox == old(db.outbox)
    ensures FailsAt(fault, 0) ==> r == Err(DbFailure) && db.brands == old(db.brands)
    ensures !FailsAt(fault, 0) ==>
      var id := |old(db.brands)| + 1;
      db.brands == old(db.brands) + [Brand(id, name, token, passHash, now)]
      && r == Ok(Brand(id, name, token, "", now))
  {
    if FailsAt(fault, 0) {
      return Err(DbFailure);
    }
    var id := |db.brands| + 1;
    db.brands := db.brands + [Brand(id, name, token, passHash, now)];
    return Ok(Brand(id, name, token, "", now));
  }

  /** `GetBrandByName`: the first row with that name, hash included; None
      with no error when there is none. */
  method GetBrandByName(db: BrandDb, name: string, fault: Fault) returns (r: Result<Option<Brand>>)
    ensures FailsAt(fault, 0) ==> r == Err(DbFailure)
    ensures !FailsAt(fault, 0) ==> r == Ok(FindBrandByName(db.brands, name))
  {
    if FailsAt(fault, 0) {
      return Err(DbFailure);
    }
    return Ok(FindBrandByName(db.brands, name));
  }

  /** `GetBrandByID`: the row with that id, without its hash, which the
      query does not select; None with no error when there is none. */
  method GetBrandByID(db: BrandDb, id: int, fault: Fault) returns (r: Result<Option<Brand>>)
    ensures FailsAt(fault, 0) ==> r == Err(DbFailure)
    ensures !FailsAt(fault, 0) ==> r.Ok?
    ensures r.Ok? ==> (r.value.None? <==> FindBrand(db.brands, id).None?)
    ensures r.Ok? && r.value.Some? ==> r.value.value == FindBrand(db.brands, id).value.(passHash := "")
  {
    if FailsAt(fault, 0) {
      return Err(DbFailure);
    }
    var b := FindBrand(db.brands, id);
    if b.None? {
      return Ok(None);
    }
    return Ok(Some(b.value.(passHash := "")));
  }

  /** `UpdateBrandToken`. */
  method UpdateBrandToken(db: BrandDb, id: int, token: string, fault: Fault) returns (r: Outcome)
    requires db.Valid()
    modifies db
    ensures db.Valid()
    ensures db.branches == old(db.branches) && db.campaigns == old(db.campaigns)
    ensures db.links == old(db.links) && db.outbox == old(db.outbox)
    ensures FailsAt(fault, 0) ==> r == Fail(DbFailure) && db.brands == old(db.brands)
    ensures !FailsAt(fault, 0) ==> r == Pass && db.brands == SetToken(old(db.brands), id, token)
  {
    if FailsAt(fault, 0) {
      return Fail(DbFailure);
    }
    db.brands := SetToken(db.brands, id, token);
    return Pass;
  }
}
