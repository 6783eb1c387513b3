/** The brand service's use cases (`brandService`, `branchService`,
    `campaignService`): input guards and the ordered repository calls behind
    brand onboarding, login, token checks, branch creation and campaign
    writes. Hashing is the parameter `hash`; a generated token is an input,
    None when `GenerateToken` fails; `now` is the database clock. */
module BrandUsecases {
  import opened Wrappers
  import opened BrandStore
  import BrandRepo
  import CampaignRepo
  import BranchRepo

  /** 2000-01-01T00:00:00Z and 2100-01-01T00:00:00Z in Unix seconds. */
  const Jan2000: int := 946684800
  const Jan2100: int := 4102444800

  /** The campaign `CreateBrand` writes for a new brand. */
  function BaseCampaign(brandId: int): Campaign
  {
    Campaign(0, BaseName, brandId, 0.0, 1000000000.0, Jan2000, Jan2100, 0.001, 0.001, 0, ActiveStatus, [])
  }

  /** `brandService.CreateBrand`: empty name or password and a failed token
      are rejected before any write; then the brand row, then its base
      campaign. A failing base-campaign insert returns the error and leaves
      the brand row behind. */
  method CreateBrand(db: BrandDb, name: string, pass: string, hash: string -> string, token: Option<string>,
                     now: int, brandFault: Fault, campaignFault: Fault) returns (r: Result<Brand>)
    requires db.Valid()
    modifies db
    ensures db.Valid()
    ensures db.branches == old(db.branches) && db.links == old(db.links) && db.outbox == old(db.outbox)
    ensures name == [] || pass == [] ==>
      r == Err(Failure("name or password are empty"))
      && db.brands == old(db.brands) && db.campaigns == old(db.campaigns)
    ensures name != [] && pass != [] && token.None? ==>
      r == Err(Failure("error generating token"))
      && db.brands == old(db.brands) && db.campaigns == old(db.campaigns)
    ensures name != [] && pass != [] && token.Some? && FailsAt(brandFault, 0) ==>
      r == Err(DbFailure) && db.brands == old(db.brands) && db.campaigns == old(db.campaigns)
    ensures name != [] && pass != [] && token.Some? && !FailsAt(brandFault, 0) ==>
      var id := |old(db.brands)| + 1;
      db.brands == old(db.brands) + [Brand(id, name, token.value, hash(pass), now)]
      && (FailsAt(campaignFault, 0) ==> r == Err(DbFailure) && db.campaigns == old(db.campaigns))
      && (!FailsAt(campaignFault, 0) ==>
            r == Ok(Brand(id, name, token.value, "", now))
            && db.campaigns == old(db.campaigns) + [CampaignRepo.Stored(BaseCampaign(id), |old(db.campaigns)| + 1)])
  {
    if name == [] || pass == [] {
      return Err(Failure("name or password are empty"));
    }
    var passHash := hash(pass);
    if token.None? {
      return Err(Failure("error generating token"));
    }
    var newBrand := BrandRepo.CreateBrand(db, name, passHash, token.value, now, brandFault);
    if newBrand.Err? {
      return Err(newBrand.error);
    }
    var created := CampaignRepo.CreateCampaign(db, BaseCampaign(newBrand.value.id), [], campaignFault);
    if created.Err? {
      return Err(created.error);
    }
    return newBrand;
  }

  /** After onboarding, the brand's first base row is the one just written:
      name "base", amounts 0 to 1e9, dates 2000-01-01 to 2100-01-01, both
      factors 0.001, no customers yet, active, and no branch list. */
  lemma OnboardedBase(cs: seq<Campaign>, brandId: int)
    requires FindBase(cs, brandId).None?
    ensures FindBase(cs + [CampaignRepo.Stored(BaseCampaign(brandId), |cs| + 1)], brandId)
      == Some(Campaign(|cs| + 1, BaseName, brandId, 0.0, 1000000000.0, Jan2000, Jan2100, 0.001, 0.001, 0, ActiveStatus, []))
  {
    FindBaseAppend(cs, CampaignRepo.Stored(BaseCampaign(brandId), |cs| + 1));
  }

  /** What `ValidateToken` answers for a stored brand table. */
  function TokenCheck(bs: seq<Brand>, brandId: int, token: string): (r: Outcome)
    ensures FindBrand(bs, brandId).None? ==> r == Fail(Failure("brand not found"))
    ensures FindBrand(bs, brandId).Some? && FindBrand(bs, brandId).value.token != token ==>
      r == Fail(Failure("invalid token"))
    ensures r.Pass? <==> FindBrand(bs, brandId).Some? && FindBrand(bs, brandId).value.token == token
  {
    var b := FindBrand(bs, brandId);
    if b.None? then Fail(Failure("brand not found"))
    else if b.value.token != token then Fail(Failure("invalid token"))
    else Pass
  }

  /** `brandService.ValidateToken`. */
  method ValidateToken(db: BrandDb, brandId: int, token: string, fault: Fault) returns (r: Outcome)
    ensures FailsAt(fault, 0) ==> r == Fail(DbFailure)
    ensures !FailsAt(fault, 0) ==> r == TokenCheck(db.brands, brandId, token)
  {
    var b := BrandRepo.GetBrandByID(db, brandId, fault);
    if b.Err? {
      return Fail(b.error);
    }
    if b.value.None? {
      return Fail(Failure("brand not found"));
    }
    if b.value.value.token != token {
      return Fail(Failure("invalid token"));
    }
    return Pass;
  }

  /** `brandService.LoginBrand`: the guards in source order (empty input,
      lookup error, unknown name, wrong password, token failure), each before
      any write; then the token update. The returned brand is the stored row
      with the new token. */
  method LoginBrand(db: BrandDb, name: string, pass: string, hash: string -> string, token: Option<string>,
                    lookupFault: Fault, updateFault: Fault) returns (r: Result<Brand>)
    requires db.Valid()
    modifies db
    ensures db.Valid()
    ensures db.branches == old(db.branches) && db.campaigns == old(db.campaigns)
    ensures db.links == old(db.links) && db.outbox == old(db.outbox)
    ensures r.Err? ==> db.brands == old(db.brands)
    ensures name == [] || pass == [] ==> r == Err(Failure("name or password are empty"))
    ensures name != [] && pass != [] && FailsAt(lookupFault, 0) ==> r == Err(DbFailure)
    ensures name != [] && pass != [] && !FailsAt(lookupFault, 0) ==>
      var b := FindBrandByName(old(db.brands), name);
      (b.None? ==> r == Err(Failure("brand not found")))
      && (b.Some? && hash(pass) != b.value.passHash ==> r == Err(Failure("invalid password")))
      && (b.Some? && hash(pass) == b.value.passHash && token.None? ==> r == Err(Failure("failed generating token")))
      && (b.Some? && hash(pass) == b.value.passHash && token.Some? ==>
            if FailsAt(updateFault, 0) then r == Err(DbFailure)
            else r == Ok(b.value.(token := token.value)) && db.brands == SetToken(old(db.brands), b.value.id, token.value))
  {
    if name == [] || pass == [] {
      return Err(Failure("name or password are empty"));
    }
    var found := BrandRepo.GetBrandByName(db, name, lookupFault);
    if found.Err? {
      return Err(found.error);
    }
    if found.value.None? {
      return Err(Failure("brand not found"));
    }
    var b := found.value.value;
    if hash(pass) != b.passHash {
      return Err(Failure("invalid password"));
    }
    if token.None? {
      return Err(Failure("failed generating token"));
    }
    var updated := BrandRepo.UpdateBrandToken(db, b.id, token.value, updateFault);
    if updated.Fail? {
      return Err(updated.error);
    }
    return Ok(b.(token := token.value));
  }

  /** In a table of serial ids, the token a login writes is the one the
      brand is then validated against, and every other brand keeps its
      answer. */
  lemma LoginThenValidate(bs: seq<Brand>, id: int, token: string, other: int, otherToken: string)
    requires SerialBrands(bs)
    requires FindBrand(bs, id).Some?
    ensures TokenCheck(SetToken(bs, id, token), id, token) == Pass
    ensures other != id ==> TokenCheck(SetToken(bs, id, token), other, otherToken) == TokenCheck(bs, other, otherToken)
  {
    var k := id - 1;
    assert 0 <= k < |bs| && bs[k].id == id;
    FindBrandSerial(SetToken(bs, id, token), k);
    if other != id {
      FindBrandSetTokenOther(bs, id, token, other);
    }
  }

  lemma {:induction false} FindBrandSerial(bs: seq<Brand>, k: nat)
    requires k < |bs|
    requires forall j :: 0 <= j < |bs| ==> bs[j].id == j + 1
    ensures FindBrand(bs, k + 1) == Some(bs[k])
  {
    FindBrandFirst(bs, k);
  }

  lemma {:induction false} FindBrandFirst(bs: seq<Brand>, k: nat)
    requires k < |bs|
    requires forall j :: 0 <= j < k ==> bs[j].id != bs[k].id
    ensures FindBrand(bs, bs[k].id) == Some(bs[k])
  {
    if k > 0 {
      FindBrandFirst(bs[1..], k - 1);
    }
  }

  lemma {:induction false} FindBrandSetTokenOther(bs: seq<Brand>, id: int, token: string, other: int)
    requires other != id
    ensures FindBrand(SetToken(bs, id, token), other) == FindBrand(bs, other)
  {
    if bs != [] {
      FindBrandSetTokenOther(bs[1..], id, token, other);
      assert SetToken(bs, id, token)[1..] == SetToken(bs[1..], id, token);
    }
  }

  /** `branchService.CreateBranch`: the branch row, then its link to the
      brand's base campaign. A failing link returns the error and leaves the
      new branch in place. */
  method CreateBranch(db: BrandDb, brandId: int, branchName: string, now: int,
                      branchFault: Fault, linkFault: Fault) returns (r: Result<Branch>)
    requires db.Valid()
    modifies db
    ensures db.Valid()
    ensures db.brands == old(db.brands) && db.campaigns == old(db.campaigns) && db.outbox == old(db.outbox)
    ensures FailsAt(branchFault, 0) ==>
      r == Err(DbFailure) && db.branches == old(db.branches) && db.links == old(db.links)
    ensures !FailsAt(branchFault, 0) ==>
      var branch := Branch(|old(db.branches)| + 1, brandId, branchName, now);
      var base := FindBase(old(db.campaigns), brandId);
      db.branches == old(db.branches) + [branch]
      && (FailsAt(linkFault, 0) ==> r == Err(DbFailure) && db.links == old(db.links))
      && (!FailsAt(linkFault, 0) && base.None? ==>
            r == Err(Failure("base campaign not found for the given brand_id")) && db.links == old(db.links))
      && (!FailsAt(linkFault, 0) && base.Some? && FailsAt(linkFault, 1) ==>
            r == Err(DbFailure) && db.links == old(db.links))
      && (!FailsAt(linkFault, 0) && base.Some? && !FailsAt(linkFault, 1) ==>
            r == Ok(branch) && db.links == old(db.links) + [Link(base.value.id, branch.id)])
  {
    var newBranch := BranchRepo.CreateBranch(db, brandId, branchName, now, branchFault);
    if newBranch.Err? {
      return Err(newBranch.error);
    }
    var linked := BranchRepo.LinkBranchToBaseCampaign(db, newBranch.value, linkFault);
    if linked.Fail? {
      return Err(linked.error);
    }
    return newBranch;
  }

  /** The date guard shared by `CreateCampaign` and `UpdateCampaign`:
      `StartDate.After(EndDate)`. */
  predicate StartsAfterEnd(c: Campaign)
  {
    c.startDate > c.endDate
  }

  /** `campaignService.CreateCampaign`: a campaign that starts after it ends
      is rejected before any write (equal dates pass); otherwise the
      repository call. */
  method CreateCampaign(db: BrandDb, c: Campaign, branchIds: seq<int>, fault: Fault) returns (r: Result<Campaign>)
    requires db.Valid()
    modifies db
    ensures db.Valid()
    ensures db.brands == old(db.brands) && db.branches == old(db.branches) && db.outbox == old(db.outbox)
    ensures StartsAfterEnd(c) ==>
      r == Err(Failure("start_date cannot be after end_date"))
      && db.campaigns == old(db.campaigns) && db.links == old(db.links)
    ensures !StartsAfterEnd(c) && FailsAt(fault, 0) ==>
      r == Err(DbFailure) && db.campaigns == old(db.campaigns) && db.links == old(db.links)
    ensures !StartsAfterEnd(c) && !FailsAt(fault, 0) ==>
      var id := |old(db.campaigns)| + 1;
      db.campaigns == old(db.campaigns) + [CampaignRepo.Stored(c, id)]
      && (c.name == BaseName ==> r == Ok(c.(id := id)) && db.links == old(db.links))
      && (c.name != BaseName ==>
            db.links == old(db.links) + LinksFor(id, branchIds[..Done(fault, 1, |branchIds|)])
            && r == if Aborts(fault, 1, |branchIds|) then Err(DbFailure) else Ok(c.(id := id)))
  {
    if StartsAfterEnd(c) {
      return Err(Failure("start_date cannot be after end_date"));
    }
    r := CampaignRepo.CreateCampaign(db, c, branchIds, fault);
  }

  /** `campaignService.UpdateCampaign`: an id lookup error, an unknown id
      ("campaign not found") and a campaign that starts after it ends are
      rejected before any write; otherwise the repository update. The Go code
      returns the campaign together with the update's error; an error is
      modelled as `Err`. */
  method UpdateCampaign(db: BrandDb, c: Campaign, branchIds: seq<int>, lookupFault: Fault, updateFault: Fault)
    returns (r: Result<Campaign>)
    requires db.Valid()
    modifies db
    ensures db.Valid()
    ensures db.brands == old(db.brands) && db.branches == old(db.branches) && db.outbox == old(db.outbox)
    ensures FailsAt(lookupFault, 0) ==>
      r == Err(DbFailure) && db.campaigns == old(db.campaigns) && db.links == old(db.links)
    ensures !FailsAt(lookupFault, 0) && FindCampaign(old(db.campaigns), c.id).None? ==>
      r == Err(Failure("campaign not found")) && db.campaigns == old(db.campaigns) && db.links == old(db.links)
    ensures !FailsAt(lookupFault, 0) && FindCampaign(old(db.campaigns), c.id).Some? && StartsAfterEnd(c) ==>
      r == Err(Failure("start_date cannot be after end_date"))
      && db.campaigns == old(db.campaigns) && db.links == old(db.links)
    ensures !FailsAt(lookupFault, 0) && FindCampaign(old(db.campaigns), c.id).Some? && !StartsAfterEnd(c) ==>
      (FailsAt(updateFault, 0) ==> r == Err(DbFailure) && db.campaigns == old(db.campaigns) && db.links == old(db.links))
      && (!FailsAt(updateFault, 0) ==> db.campaigns == UpdateRows(old(db.campaigns), c))
      && (FailsAt(updateFault, 1) ==> r == Err(DbFailure) && db.links == old(db.links))
      && (!FailsAt(updateFault, 0) && !FailsAt(updateFault, 1) ==>
            db.links == DropLinks(old(db.links), c.id) + LinksFor(c.id, branchIds[..Done(updateFault, 2, |branchIds|)])
            && r == if Aborts(updateFault, 2, |branchIds|) then Err(DbFailure) else Ok(c))
    ensures r.Ok? ==>
      r.value == c && LinksOf(db.links, c.id) == branchIds
      && forall other :: other != c.id ==> LinksOf(db.links, other) == LinksOf(old(db.links), other)
  {
    var existing := CampaignRepo.GetCampaignByID(db, c.id, lookupFault);
    if existing.Err? {
      return Err(existing.error);
    }
    if existing.value.None? {
      return Err(Failure("campaign not found"));
    }
    if StartsAfterEnd(c) {
      return Err(Failure("start_date cannot be after end_date"));
    }
    var updated := CampaignRepo.UpdateCampaign(db, c, branchIds, updateFault);
    if updated.Fail? {
      return Err(updated.error);
    }
    return Ok(c);
  }
}
