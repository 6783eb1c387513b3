/** `postgresBranchRepo`: branch rows and the link of a new branch to its
    brand's base campaign. */
module BranchRepo {
  import opened Wrappers
  import opened BrandStore

  /** `CreateBranch`: statement 0 inserts the row; the database supplies the
      next id and the registration date (`now`). */
  method CreateBranch(db: BrandDb, brandId: int, branchName: string, now: int, fault: Fault) returns (r: Result<Branch>)
    requires db.Valid()
    modifies db
    ensures db.Valid()
    ensures db.brands == old(db.brands) && db.campaigns == old(db.campaigns)
    ensures db.links == old(db.links) && db.outbox == old(db.outbox)
    ensures FailsAt(fault, 0) ==> r == Err(DbFailure) && db.branches == old(db.branches)
    ensures !FailsAt(fault, 0) ==>
      r == Ok(Branch(|old(db.branches)| + 1, brandId, branchName, now))
      && db.branches == old(db.branches) + [r.value]
  {
    if FailsAt(fault, 0) {
      return Err(DbFailure);
    }
    var br := Branch(|db.branches| + 1, brandId, branchName, now);
    db.branches := db.branches + [br];
    return Ok(br);
  }

  /** `LinkBranchToBaseCampaign`: statement 0 looks up the brand's first
      "base" campaign, statement 1 links the branch to it. Without a base
      campaign nothing is written. */
  method LinkBranchToBaseCampaign(db: BrandDb, branch: Branch, fault: Fault) returns (r: Outcome)
    modifies db
    ensures db.brands == old(db.brands) && db.branches == old(db.branches)
    ensures db.campaigns == old(db.campaigns) && db.outbox == old(db.outbox)
    ensures FailsAt(fault, 0) ==> r == Fail(DbFailure) && db.links == old(db.links)
    ensures !FailsAt(fault, 0) && FindBase(old(db.campaigns), branch.brandId).None? ==>
      r == Fail(Failure("base campaign not found for the given brand_id")) && db.links == old(db.links)
    ensures !FailsAt(fault, 0) && FindBase(old(db.campaigns), branch.brandId).Some? ==>
      if FailsAt(fault, 1) then r == Fail(DbFailure) && db.links == old(db.links)
      else r == Pass && db.links == old(db.links) + [Link(FindBase(old(db.campaigns), branch.brandId).value.id, branch.id)]
  {
    if FailsAt(fault, 0) {
      return Fail(DbFailure);
    }
    var base := FindBase(db.campaigns, branch.brandId);
    if base.None? {
      return Fail(Failure("base campaign not found for the given brand_id"));
    }
    if FailsAt(fault, 1) {
      return Fail(DbFailure);
    }
    db.links := db.links + [Link(base.value.id, branch.id)];
    return Pass;
  }

  /** `GetBranchesByBrandID`: the brand's branch rows in table order. */
  method GetBranchesByBrandID(db: BrandDb, brandId: int, fault: Fault) returns (r: Result<seq<Branch>>)
    ensures FailsAt(fault, 0) ==> r == Err(DbFailure)
    ensures !FailsAt(fault, 0) ==> r.Ok?
    ensures r.Ok? ==>
      (forall i :: 0 <= i < |r.value| ==> r.value[i].brandId == brandId)
      && (forall b :: b in r.value <==> b in db.branches && b.brandId == brandId)
      && r.value == BranchesOf(db.branches, brandId)
  {
    if FailsAt(fault, 0) {
      return Err(DbFailure);
    }
    var branches: seq<Branch> := [];
    for i := 0 to |db.branches|
      invariant branches == BranchesOf(db.branches[..i], brandId)
    {
      var br := db.branches[i].(brandId := brandId);
      assert db.branches[..i + 1] == db.branches[..i] + [db.branches[i]];
      BranchesOfAppend(db.branches[..i], db.branches[i], brandId);
      if db.branches[i].brandId == brandId {
        branches := branches + [br];
      }
    }
    assert db.branches[..|db.branches|] == db.branches;
    return Ok(branches);
  }
}
