/** The brand service's tables (`brand`, `branch`, `campaign`,
    `campaign_branches`) and its outgoing messages, as one in-memory
    database; and the pure table functions the repositories are specified
    by. Rows are kept in insertion order, and the model numbers a `SERIAL`
    id as the row's position plus one: the database may leave gaps, but ids
    stay unique and increasing either way. */
module BrandStore {
  import opened Wrappers
  import opened Messages

  /** `domain.Brand`; dates are Unix seconds. */
  datatype Brand = Brand(id: int, name: string, token: string, passHash: string, registrationDate: int)

  /** `domain.Branch`. */
  datatype Branch = Branch(id: int, brandId: int, name: string, registrationDate: int)

  /** `domain.Campaign`. `branches` is filled only by `GetCampaignsByBrandID`; a
      stored row keeps it empty, because the links live in their own table. */
  datatype Campaign = Campaign(
    id: int,
    name: string,
    brandId: int,
    minValue: real,
    maxValue: real,
    startDate: int,
    endDate: int,
    pointFactor: real,
    coinFactor: real,
    customerCount: int,
    status: string,
    branches: seq<int>)

  /** A row of `campaign_branches`. */
  datatype Link = Link(campaignId: int, branchId: int)

  const BaseName: string := "base"
  const ActiveStatus: string := "active"

  predicate SerialBrands(bs: seq<Brand>)
  {
    forall i :: 0 <= i < |bs| ==> bs[i].id == i + 1
  }

  predicate SerialBranches(bs: seq<Branch>)
  {
    forall i :: 0 <= i < |bs| ==> bs[i].id == i + 1
  }

  predicate SerialCampaigns(cs: seq<Campaign>)
  {
    forall i :: 0 <= i < |cs| ==> cs[i].id == i + 1 && cs[i].branches == []
  }

  /** No two campaign rows share an id (the primary key). */
  predicate UniqueIds(cs: seq<Campaign>)
  {
    forall i, j :: 0 <= i < |cs| && 0 <= j < |cs| && cs[i].id == cs[j].id ==> i == j
  }

  class BrandDb {
    var brands: seq<Brand>
    var branches: seq<Branch>
    var campaigns: seq<Campaign>
    var links: seq<Link>
    /** Messages handed to the producer, oldest first. */
    var outbox: seq<Message>
    /** `MsgApplyPointsTopic` of the service configuration. */
    const applyTopic: string

    ghost predicate Valid()
      reads this
    {
      SerialBrands(brands) && SerialBranches(branches) && SerialCampaigns(campaigns)
    }

    constructor (applyTopic: string)
      ensures Valid() && this.applyTopic == applyTopic
      ensures brands == [] && branches == [] && campaigns == [] && links == [] && outbox == []
    {
      this.applyTopic := applyTopic;
      brands, branches, campaigns, links, outbox := [], [], [], [], [];
    }
  }

  lemma SerialUnique(cs: seq<Campaign>)
    requires SerialCampaigns(cs)
    ensures UniqueIds(cs)
  {
  }

  // ---- campaign rows ------------------------------------------------------

  /** `... FROM campaign WHERE id=$1`: the row with that id, if any. */
  function FindCampaign(cs: seq<Campaign>, id: int): (r: Option<Campaign>)
    ensures r.Some? ==> r.value in cs && r.value.id == id
    ensures r.None? <==> forall i :: 0 <= i < |cs| ==> cs[i].id != id
  {
    if cs == [] then None
    else if cs[0].id == id then Some(cs[0])
    else FindCampaign(cs[1..], id)
  }

  lemma {:induction false} FindCampaignFirst(cs: seq<Campaign>, k: nat)
    requires k < |cs|
    requires forall j :: 0 <= j < k ==> cs[j].id != cs[k].id
    ensures FindCampaign(cs, cs[k].id) == Some(cs[k])
  {
    if k > 0 {
      FindCampaignFirst(cs[1..], k - 1);
    }
  }

  /** With unique ids, the lookup finds every row by its own id. */
  lemma FindCampaignUnique(cs: seq<Campaign>, k: nat)
    requires UniqueIds(cs) && k < |cs|
    ensures FindCampaign(cs, cs[k].id) == Some(cs[k])
  {
    FindCampaignFirst(cs, k);
  }

  /** `WHERE c.campaign_name = 'base' AND c.brand_id = $1` read with
      `QueryRow`: the first such row. */
  function FindBase(cs: seq<Campaign>, brandId: int): (r: Option<Campaign>)
    ensures r.Some? ==> r.value in cs && r.value.name == BaseName && r.value.brandId == brandId
    ensures r.None? <==> forall i :: 0 <= i < |cs| ==> !(cs[i].name == BaseName && cs[i].brandId == brandId)
  {
    if cs == [] then None
    else if cs[0].name == BaseName && cs[0].brandId == brandId then Some(cs[0])
    else FindBase(cs[1..], brandId)
  }

  lemma {:induction false} FindBaseAppend(cs: seq<Campaign>, c: Campaign)
    ensures FindBase(cs + [c], c.brandId) ==
      if FindBase(cs, c.brandId).Some? then FindBase(cs, c.brandId)
      else if c.name == BaseName then Some(c) else None
  {
    if cs != [] {
      assert (cs + [c])[1..] == cs[1..] + [c];
      FindBaseAppend(cs[1..], c);
    }
  }

  /** `UPDATE campaign SET customer_count = customer_count+1 WHERE id = $1`. */
  function Bump(cs: seq<Campaign>, id: int): (r: seq<Campaign>)
    ensures |r| == |cs|
    ensures forall i :: 0 <= i < |cs| ==>
      r[i] == if cs[i].id == id then cs[i].(customerCount := cs[i].customerCount + 1) else cs[i]
  {
    if cs == [] then []
    else [if cs[0].id == id then cs[0].(customerCount := cs[0].customerCount + 1) else cs[0]] + Bump(cs[1..], id)
  }

  /** One `Bump` per id, in order. */
  function BumpAll(cs: seq<Campaign>, ids: seq<int>): (r: seq<Campaign>)
    ensures |r| == |cs|
  {
    if ids == [] then cs else Bump(BumpAll(cs, ids[..|ids| - 1]), ids[|ids| - 1])
  }

  /** After the bumps each row's counter has risen by the number of times its
      id occurs, and nothing else about any row has changed. */
  lemma {:induction false} BumpAllCounts(cs: seq<Campaign>, ids: seq<int>)
    ensures forall i :: 0 <= i < |cs| ==>
      BumpAll(cs, ids)[i] == cs[i].(customerCount := cs[i].customerCount + multiset(ids)[cs[i].id])
  {
    if ids != [] {
      var front := ids[..|ids| - 1];
      assert ids == front + [ids[|ids| - 1]];
      BumpAllCounts(cs, front);
    }
  }

  /** Counter bumps keep ids serial and stored branch lists empty. */
  lemma {:induction false} BumpAllSerial(cs: seq<Campaign>, ids: seq<int>)
    requires SerialCampaigns(cs)
    ensures SerialCampaigns(BumpAll(cs, ids))
  {
    if ids != [] {
      BumpAllSerial(cs, ids[..|ids| - 1]);
    }
  }

  /** The fields `UpdateCampaign` sets, copied from `c` into `row`. */
  function Apply(row: Campaign, c: Campaign): Campaign
  {
    row.(name := c.name, minValue := c.minValue, maxValue := c.maxValue,
         startDate := c.startDate, endDate := c.endDate,
         pointFactor := c.pointFactor, coinFactor := c.coinFactor)
  }

  /** `UPDATE campaign SET campaign_name=..., coin_factor=... WHERE id=$8 AND
      brand_id=$9`: only a row matching both id and brand is touched, and
      status, customer count, id and brand of every row are kept. */
  function UpdateRows(cs: seq<Campaign>, c: Campaign): (r: seq<Campaign>)
    ensures |r| == |cs|
    ensures forall i :: 0 <= i < |cs| ==>
      r[i].id == cs[i].id && r[i].brandId == cs[i].brandId
      && r[i].status == cs[i].status && r[i].customerCount == cs[i].customerCount
      && r[i].branches == cs[i].branches
    ensures forall i :: 0 <= i < |cs| && !(cs[i].id == c.id && cs[i].brandId == c.brandId) ==> r[i] == cs[i]
    ensures forall i :: 0 <= i < |cs| && cs[i].id == c.id && cs[i].brandId == c.brandId ==>
      r[i].name == c.name && r[i].minValue == c.minValue && r[i].maxValue == c.maxValue
      && r[i].startDate == c.startDate && r[i].endDate == c.endDate
      && r[i].pointFactor == c.pointFactor && r[i].coinFactor == c.coinFactor
  {
    if cs == [] then []
    else [if cs[0].id == c.id && cs[0].brandId == c.brandId then Apply(cs[0], c) else cs[0]] + UpdateRows(cs[1..], c)
  }

  // ---- campaign_branches ----------------------------------------------------

  /** The branch ids linked to one campaign, in link-table order. */
  function LinksOf(ls: seq<Link>, campaignId: int): (r: seq<int>)
    ensures |r| <= |ls|
    ensures forall b :: b in r <==> Link(campaignId, b) in ls
  {
    if ls == [] then []
    else (if ls[0].campaignId == campaignId then [ls[0].branchId] else []) + LinksOf(ls[1..], campaignId)
  }

  lemma {:induction false} LinksOfAppend(a: seq<Link>, b: seq<Link>, campaignId: int)
    ensures LinksOf(a + b, campaignId) == LinksOf(a, campaignId) + LinksOf(b, campaignId)
  {
    if a == [] {
      assert a + b == b;
    } else {
      assert (a + b)[1..] == a[1..] + b;
      LinksOfAppend(a[1..], b, campaignId);
    }
  }

  /** `DELETE FROM campaign_branches WHERE campaign_id=$1`. */
  function DropLinks(ls: seq<Link>, campaignId: int): (r: seq<Link>)
    ensures |r| <= |ls|
    ensures forall l :: l in r <==> l in ls && l.campaignId != campaignId
  {
    if ls == [] then []
    else (if ls[0].campaignId == campaignId then [] else [ls[0]]) + DropLinks(ls[1..], campaignId)
  }

  /** One `INSERT INTO campaign_branches` per branch id, in order. */
  function LinksFor(campaignId: int, branchIds: seq<int>): (r: seq<Link>)
    ensures |r| == |branchIds|
    ensures forall i :: 0 <= i < |r| ==> r[i] == Link(campaignId, branchIds[i])
  {
    if branchIds == [] then [] else [Link(campaignId, branchIds[0])] + LinksFor(campaignId, branchIds[1..])
  }

  lemma {:induction false} LinksOfDropLinks(ls: seq<Link>, campaignId: int, other: int)
    ensures LinksOf(DropLinks(ls, campaignId), other) == if other == campaignId then [] else LinksOf(ls, other)
  {
    if ls != [] {
      LinksOfDropLinks(ls[1..], campaignId, other);
      var head := if ls[0].campaignId == campaignId then [] else [ls[0]];
      LinksOfAppend(head, DropLinks(ls[1..], campaignId), other);
      if head != [] {
        assert LinksOf(head, other) == if ls[0].campaignId == other then [ls[0].branchId] else [] by {
          assert head[1..] == [];
        }
      }
    }
  }

  lemma {:induction false} LinksOfLinksFor(campaignId: int, branchIds: seq<int>, other: int)
    ensures LinksOf(LinksFor(campaignId, branchIds), other) == if other == campaignId then branchIds else []
  {
    if branchIds != [] {
      LinksOfLinksFor(campaignId, branchIds[1..], other);
      assert LinksFor(campaignId, branchIds)[1..] == LinksFor(campaignId, branchIds[1..]);
    }
  }

  /** Deleting a campaign's links and inserting new ones leaves it linked to
      exactly the new ids, in order, and every other campaign's links as they
      were. */
  lemma ReplaceLinks(ls: seq<Link>, campaignId: int, branchIds: seq<int>, other: int)
    ensures LinksOf(DropLinks(ls, campaignId) + LinksFor(campaignId, branchIds), other)
      == if other == campaignId then branchIds else LinksOf(ls, other)
  {
    LinksOfAppend(DropLinks(ls, campaignId), LinksFor(campaignId, branchIds), other);
    LinksOfDropLinks(ls, campaignId, other);
    LinksOfLinksFor(campaignId, branchIds, other);
  }

  /** The rows of `campaign_branches INNER JOIN campaign ... WHERE
      cb.branch_id = $1 AND c.status = 'active'`, one per matching link, in
      link-table order. */
  function ForBranch(ls: seq<Link>, cs: seq<Campaign>, branchId: int): (r: seq<Campaign>)
    ensures |r| <= |ls|
    ensures forall i :: 0 <= i < |r| ==> r[i] in cs && r[i].status == ActiveStatus
  {
    if ls == [] then []
    else
      var c := FindCampaign(cs, ls[0].campaignId);
      (if ls[0].branchId == branchId && c.Some? && c.value.status == ActiveStatus then [c.value] else [])
      + ForBranch(ls[1..], cs, branchId)
  }

  /** A campaign comes back for a branch exactly when it is active and linked
      to that branch. */
  lemma {:induction false} ForBranchMembers(ls: seq<Link>, cs: seq<Campaign>, branchId: int, c: Campaign)
    requires UniqueIds(cs)
    ensures c in ForBranch(ls, cs, branchId) <==> c in cs && c.status == ActiveStatus && Link(c.id, branchId) in ls
  {
    if ls != [] {
      ForBranchMembers(ls[1..], cs, branchId, c);
      if c in cs && ls[0] == Link(c.id, branchId) {
        var k :| 0 <= k < |cs| && cs[k] == c;
        FindCampaignUnique(cs, k);
      }
    }
  }

  // ---- brand rows -----------------------------------------------------------

  function FindBrand(bs: seq<Brand>, id: int): (r: Option<Brand>)
    ensures r.Some? ==> r.value in bs && r.value.id == id
    ensures r.None? <==> forall i :: 0 <= i < |bs| ==> bs[i].id != id
  {
    if bs == [] then None else if bs[0].id == id then Some(bs[0]) else FindBrand(bs[1..], id)
  }

  /** `WHERE brand_name = $1` read with `QueryRow`: the first such row. */
  function FindBrandByName(bs: seq<Brand>, name: string): (r: Option<Brand>)
    ensures r.Some? ==> r.value in bs && r.value.name == name
    ensures r.None? <==> forall i :: 0 <= i < |bs| ==> bs[i].name != name
  {
    if bs == [] then None else if bs[0].name == name then Some(bs[0]) else FindBrandByName(bs[1..], name)
  }

  /** `UPDATE brand SET token=$1 WHERE id=$2`. */
  function SetToken(bs: seq<Brand>, id: int, token: string): (r: seq<Brand>)
    ensures |r| == |bs|
    ensures forall i :: 0 <= i < |bs| ==> r[i] == if bs[i].id == id then bs[i].(token := token) else bs[i]
  {
    if bs == [] then [] else [if bs[0].id == id then bs[0].(token := token) else bs[0]] + SetToken(bs[1..], id, token)
  }

  // ---- branch rows ------------------------------------------------------------

  /** `SELECT ... FROM branch WHERE brand_id = $1`, in table order. */
  function BranchesOf(bs: seq<Branch>, brandId: int): (r: seq<Branch>)
    ensures |r| <= |bs|
    ensures forall i :: 0 <= i < |r| ==> r[i].brandId == brandId
    ensures forall b :: b in r <==> b in bs && b.brandId == brandId
  {
    if bs == [] then []
    else (if bs[0].brandId == brandId then [bs[0]] else []) + BranchesOf(bs[1..], brandId)
  }

  lemma {:induction false} BranchesOfAppend(bs: seq<Branch>, b: Branch, brandId: int)
    ensures BranchesOf(bs + [b], brandId) == BranchesOf(bs, brandId) + (if b.brandId == brandId then [b] else [])
  {
    if bs != [] {
      assert (bs + [b])[1..] == bs[1..] + [b];
      BranchesOfAppend(bs[1..], b, brandId);
    } else {
      assert BranchesOf([b], brandId) == (if b.brandId == brandId then [b] else []) + BranchesOf([], brandId);
    }
  }
}
