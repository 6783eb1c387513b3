/** `postgresCampaignRepo`: the campaign and campaign-branch statements of the
    brand service, each statement one atomic step on `BrandDb` that fails
    when the fault parameter names it. */
module CampaignRepo {
  import opened Wrappers
  import opened Decimal
  import opened BranchIds
  import opened BrandStore

  /** The row `CreateCampaign` inserts: the next serial id, the database
      default of 0 for the counter, and no branch list in the row. */
  function Stored(c: Campaign, id: int): (row: Campaign)
    ensures row.id == id && row.customerCount == 0 && row.branches == []
    ensures row.(id := c.id, customerCount := c.customerCount, branches := c.branches) == c
  {
    c.(id := id, customerCount := 0, branches := [])
  }

  /** The `INSERT INTO campaign_branches` loop shared by `CreateCampaign` and
      `UpdateCampaign`: statement `first + i` links `branchIds[i]`, and the
      first failing insert stops the loop with the earlier links kept. */
  method InsertLinks(db: BrandDb, campaignId: int, branchIds: seq<int>, fault: Fault, first: nat) returns (r: Outcome)
    modifies db
    ensures db.brands == old(db.brands) && db.branches == old(db.branches)
    ensures db.campaigns == old(db.campaigns) && db.outbox == old(db.outbox)
    ensures db.links == old(db.links) + LinksFor(campaignId, branchIds[..Done(fault, first, |branchIds|)])
    ensures r == if Aborts(fault, first, |branchIds|) then Fail(DbFailure) else Pass
  {
    for i := 0 to |branchIds|
      invariant db.brands == old(db.brands) && db.branches == old(db.branches)
      invariant db.campaigns == old(db.campaigns) && db.outbox == old(db.outbox)
      invariant db.links == old(db.links) + LinksFor(campaignId, branchIds[..i])
      invariant !Aborts(fault, first, i)
    {
      if FailsAt(fault, first + i) {
        return Fail(DbFailure);
      }
      assert LinksFor(campaignId, branchIds[..i + 1]) == LinksFor(campaignId, branchIds[..i]) + [Link(campaignId, branchIds[i])];
      db.links := db.links + [Link(campaignId, branchIds[i])];
    }
    assert branchIds[..|branchIds|] == branchIds;
    return Pass;
  }

  /** `CreateCampaign`: statement 0 inserts the campaign row; a campaign named
      "base" gets no links, any other gets one link per given branch id
      (statement `1 + i` for the i-th). The input comes back with the new id;
      a failing link insert returns the error and leaves the row and the
      earlier links in place. */
  method CreateCampaign(db: BrandDb, c: Campaign, branchIds: seq<int>, fault: Fault) returns (r: Result<Campaign>)
    requires db.Valid()
    modifies db
    ensures db.Valid()
    ensures db.brands == old(db.brands) && db.branches == old(db.branches) && db.outbox == old(db.outbox)
    ensures FailsAt(fault, 0) ==>
      r == Err(DbFailure) && db.campaigns == old(db.campaigns) && db.links == old(db.links)
    ensures !FailsAt(fault, 0) ==>
      var id := |old(db.campaigns)| + 1;
      db.campaigns == old(db.campaigns) + [Stored(c, id)]
      && (c.name == BaseName ==> r == Ok(c.(id := id)) && db.links == old(db.links))
      && (c.name != BaseName ==>
            db.links == old(db.links) + LinksFor(id, branchIds[..Done(fault, 1, |branchIds|)])
            && r == if Aborts(fault, 1, |branchIds|) then Err(DbFailure) else Ok(c.(id := id)))
  {
    if FailsAt(fault, 0) {
      return Err(DbFailure);
    }
    var id := |db.campaigns| + 1;
    db.campaigns := db.campaigns + [Stored(c, id)];
    if c.name == BaseName {
      return Ok(c.(id := id));
    }
    var linked := InsertLinks(db, id, branchIds, fault, 1);
    if linked.Fail? {
      return Err(linked.error);
    }
    return Ok(c.(id := id));
  }

  /** `GetCampaignByID`: the row with that id, or None with no error. */
  method GetCampaignByID(db: BrandDb, id: int, fault: Fault) returns (r: Result<Option<Campaign>>)
    ensures FailsAt(fault, 0) ==> r == Err(DbFailure)
    ensures !FailsAt(fault, 0) ==> r.Ok?
    ensures r.Ok? && r.value.Some? ==> r.value.value in db.campaigns && r.value.value.id == id
    ensures r.Ok? ==> (r.value.None? <==> forall i :: 0 <= i < |db.campaigns| ==> db.campaigns[i].id != id)
    ensures r.Ok? ==> r.value == FindCampaign(db.campaigns, id)
  {
    if FailsAt(fault, 0) {
      return Err(DbFailure);
    }
    return Ok(FindCampaign(db.campaigns, id));
  }

  /** `UpdateCampaign`: statement 0 rewrites the row matching both the id and
      the brand (status and counter kept), statement 1 deletes all of the
      id's links whatever the brand, and statement `2 + i` links the i-th
      given branch id. On success the campaign is linked to exactly the given
      ids, in order, and no other campaign's links change. */
  method UpdateCampaign(db: BrandDb, c: Campaign, branchIds: seq<int>, fault: Fault) returns (r: Outcome)
    requires db.Valid()
    modifies db
    ensures db.Valid()
    ensures db.brands == old(db.brands) && db.branches == old(db.branches) && db.outbox == old(db.outbox)
    ensures FailsAt(fault, 0) ==> r == Fail(DbFailure) && db.campaigns == old(db.campaigns) && db.links == old(db.links)
    ensures !FailsAt(fault, 0) ==> db.campaigns == UpdateRows(old(db.campaigns), c)
    ensures FailsAt(fault, 1) ==> r == Fail(DbFailure) && db.links == old(db.links)
    ensures !FailsAt(fault, 0) && !FailsAt(fault, 1) ==>
      db.links == DropLinks(old(db.links), c.id) + LinksFor(c.id, branchIds[..Done(fault, 2, |branchIds|)])
      && r == if Aborts(fault, 2, |branchIds|) then Fail(DbFailure) else Pass
    ensures r.Pass? ==>
      LinksOf(db.links, c.id) == branchIds
      && forall other :: other != c.id ==> LinksOf(db.links, other) == LinksOf(old(db.links), other)
  {
    if FailsAt(fault, 0) {
      return Fail(DbFailure);
    }
    db.campaigns := UpdateRows(db.campaigns, c);
    if FailsAt(fault, 1) {
      return Fail(DbFailure);
    }
    db.links := DropLinks(db.links, c.id);
    ghost var dropped := db.links;
    r := InsertLinks(db, c.id, branchIds, fault, 2);
    if r.Pass? {
      assert branchIds[..|branchIds|] == branchIds;
      forall other ensures LinksOf(db.links, other) == if other == c.id then branchIds else LinksOf(old(db.links), other) {
        ReplaceLinks(old(db.links), c.id, branchIds, other);
      }
    }
  }

  // ---- GetCampaignsByBrandID -------------------------------------------------

  /** One row of the grouped query: the campaign columns and the
      `STRING_AGG` text of its branch ids. */
  datatype AggRow = AggRow(campaign: Campaign, branchIds: string)

  /** The brand's campaign rows, in table order, each with the ids of its
      links (the `LEFT JOIN ... GROUP BY c.id`). */
  function Grouped(cs: seq<Campaign>, ls: seq<Link>, brandId: int): (r: seq<Campaign>)
    ensures |r| <= |cs|
    ensures forall i :: 0 <= i < |r| ==> r[i].brandId == brandId && r[i].branches == LinksOf(ls, r[i].id)
  {
    if cs == [] then []
    else
      (if cs[0].brandId == brandId then [cs[0].(branches := LinksOf(ls, cs[0].id))] else [])
      + Grouped(cs[1..], ls, brandId)
  }

  /** Every campaign row of the brand appears in the grouped rows. */
  lemma {:induction false} GroupedMembers(cs: seq<Campaign>, ls: seq<Link>, brandId: int, c: Campaign)
    ensures c in Grouped(cs, ls, brandId) <==>
      c.brandId == brandId && c.branches == LinksOf(ls, c.id) && c.(branches := []) in Batch(cs)
  {
    if cs != [] {
      GroupedMembers(cs[1..], ls, brandId, c);
      assert Batch(cs) == [cs[0].(branches := [])] + Batch(cs[1..]);
    }
  }

  /** The rows with their branch lists cleared, as the table stores them. */
  function Batch(cs: seq<Campaign>): (r: seq<Campaign>)
    ensures |r| == |cs|
    ensures forall i :: 0 <= i < |cs| ==> r[i] == cs[i].(branches := [])
  {
    if cs == [] then [] else [cs[0].(branches := [])] + Batch(cs[1..])
  }

  predicate Descending(s: seq<Campaign>)
  {
    forall i, j :: 0 <= i < j < |s| ==> s[i].startDate >= s[j].startDate
  }

  /** Puts `c` after every row that starts no later than it. */
  function InsertDesc(s: seq<Campaign>, c: Campaign): (r: seq<Campaign>)
    ensures |r| == |s| + 1
    ensures multiset(r) == multiset(s) + multiset{c}
  {
    if s == [] then [c]
    else if s[0].startDate >= c.startDate then
      assert s == [s[0]] + s[1..];
      [s[0]] + InsertDesc(s[1..], c)
    else [c] + s
  }

  lemma {:induction false} InsertDescSorted(s: seq<Campaign>, c: Campaign)
    requires Descending(s)
    ensures Descending(InsertDesc(s, c))
  {
    if s != [] && s[0].startDate >= c.startDate {
      InsertDescSorted(s[1..], c);
      var r := InsertDesc(s, c);
      forall k | 0 < k < |r| ensures r[0].startDate >= r[k].startDate {
        assert r[k] in multiset(InsertDesc(s[1..], c));
        assert r[k] in s[1..] || r[k] == c;
      }
    }
  }

  /** `ORDER BY c.start_date DESC`, rows with equal dates kept in table order. */
  function SortDesc(s: seq<Campaign>): (r: seq<Campaign>)
    ensures |r| == |s|
    ensures multiset(r) == multiset(s)
  {
    if s == [] then []
    else
      assert s == s[..|s| - 1] + [s[|s| - 1]];
      InsertDesc(SortDesc(s[..|s| - 1]), s[|s| - 1])
  }

  lemma {:induction false} SortDescSorted(s: seq<Campaign>)
    ensures Descending(SortDesc(s))
  {
    if s != [] {
      SortDescSorted(s[..|s| - 1]);
      InsertDescSorted(SortDesc(s[..|s| - 1]), s[|s| - 1]);
    }
  }

  /** What the query returns: the grouped rows, newest start first, each with
      its ids written as text. */
  function QueryRows(cs: seq<Campaign>, ls: seq<Link>, brandId: int): (r: seq<AggRow>)
    ensures |r| == |SortDesc(Grouped(cs, ls, brandId))|
    ensures forall i :: 0 <= i < |r| ==>
      var c := SortDesc(Grouped(cs, ls, brandId))[i];
      r[i] == AggRow(c.(branches := []), EncodeIds(c.branches))
  {
    Rows(SortDesc(Grouped(cs, ls, brandId)))
  }

  function Rows(s: seq<Campaign>): (r: seq<AggRow>)
    ensures |r| == |s|
    ensures forall i :: 0 <= i < |s| ==> r[i] == AggRow(s[i].(branches := []), EncodeIds(s[i].branches))
  {
    if s == [] then [] else [AggRow(s[0].(branches := []), EncodeIds(s[0].branches))] + Rows(s[1..])
  }

  /** The campaigns `GetCampaignsByBrandID` promises: all of the brand's
      campaigns with their linked branch ids, newest start date first. */
  function BrandCampaigns(cs: seq<Campaign>, ls: seq<Link>, brandId: int): seq<Campaign>
  {
    SortDesc(Grouped(cs, ls, brandId))
  }

  lemma BrandCampaignsSpec(cs: seq<Campaign>, ls: seq<Link>, brandId: int)
    ensures Descending(BrandCampaigns(cs, ls, brandId))
    ensures multiset(BrandCampaigns(cs, ls, brandId)) == multiset(Grouped(cs, ls, brandId))
  {
    SortDescSorted(Grouped(cs, ls, brandId));
  }

  predicate IdsFit(s: seq<Campaign>)
  {
    forall i :: 0 <= i < |s| ==> AllInt64(s[i].branches)
  }

  /** The body of the row loop: the scanned campaign with its decoded branch
      ids and the brand id set, or None when the text does not decode. */
  method DecodeRow(row: AggRow, brandId: int) returns (r: Option<Campaign>)
    ensures r.Some? <==> DecodeIdsOk(row.branchIds)
    ensures r.Some? ==>
      r.value == row.campaign.(branches := r.value.branches, brandId := brandId)
      && DecodedAs(row.branchIds, r.value.branches)
  {
    var branches := DecodeIds(row.branchIds);
    if branches.None? {
      return None;
    }
    return Some(row.campaign.(branches := branches.value, brandId := brandId));
  }

  /** The `for rows.Next()` loop of `GetCampaignsByBrandID`: decodes each
      row in order, and stops with the `strconv` error at the first row whose
      text does not decode. */
  method DecodeRows(rows: seq<AggRow>, brandId: int) returns (r: Result<seq<Campaign>>)
    ensures r.Err? ==> r.error == NumError && exists i :: 0 <= i < |rows| && !DecodeIdsOk(rows[i].branchIds)
    ensures (forall i :: 0 <= i < |rows| ==> DecodeIdsOk(rows[i].branchIds)) ==> r.Ok?
    ensures r.Ok? ==>
      |r.value| == |rows|
      && forall i :: 0 <= i < |rows| ==>
        r.value[i] == rows[i].campaign.(branches := r.value[i].branches, brandId := brandId)
        && DecodedAs(rows[i].branchIds, r.value[i].branches)
  {
    var campaigns: seq<Campaign> := [];
    var i := 0;
    while i < |rows|
      invariant 0 <= i <= |rows|
      invariant |campaigns| == i
      invariant forall j :: 0 <= j < i ==>
        campaigns[j] == rows[j].campaign.(branches := campaigns[j].branches, brandId := brandId)
        && DecodedAs(rows[j].branchIds, campaigns[j].branches)
    {
      var c := DecodeRow(rows[i], brandId);
      if c.None? {
        return Err(NumError);
      }
      campaigns := campaigns + [c.value];
      i := i + 1;
    }
    return Ok(campaigns);
  }

  predicate OfBrand(s: seq<Campaign>, brandId: int)
  {
    forall i :: 0 <= i < |s| ==> s[i].brandId == brandId
  }

  /** `GetCampaignsByBrandID`: statement 0 runs the grouped, ordered query,
      whose rows are then decoded. When every linked id fits a 64-bit int, the
      result is exactly `BrandCampaigns`. */
  method GetCampaignsByBrandID(db: BrandDb, brandId: int, fault: Fault) returns (r: Result<seq<Campaign>>)
    ensures FailsAt(fault, 0) ==> r == Err(DbFailure)
    ensures r.Err? ==> r.error == DbFailure || r.error == NumError
    ensures r.Ok? ==>
      var want := BrandCampaigns(db.campaigns, db.links, brandId);
      |r.value| == |want|
      && forall i :: 0 <= i < |want| ==> r.value[i] == want[i].(branches := r.value[i].branches)
    ensures !FailsAt(fault, 0) && IdsFit(BrandCampaigns(db.campaigns, db.links, brandId)) ==>
      r == Ok(BrandCampaigns(db.campaigns, db.links, brandId))
  {
    if FailsAt(fault, 0) {
      return Err(DbFailure);
    }
    ghost var want := BrandCampaigns(db.campaigns, db.links, brandId);
    var rows := QueryRows(db.campaigns, db.links, brandId);
    r := DecodeRows(rows, brandId);
    BrandCampaignsOfBrand(db.campaigns, db.links, brandId);
    if r.Ok? {
      forall i | 0 <= i < |want| ensures r.value[i] == want[i].(branches := r.value[i].branches) {
        assert rows[i] == AggRow(want[i].(branches := []), EncodeIds(want[i].branches));
      }
    }
    if IdsFit(want) {
      forall i | 0 <= i < |rows| ensures DecodeIdsOk(rows[i].branchIds) {
        EncodedDecodes(want[i].branches, []);
      }
      assert r.Ok?;
      forall i | 0 <= i < |rows| ensures r.value[i] == want[i] {
        assert rows[i] == AggRow(want[i].(branches := []), EncodeIds(want[i].branches));
        EncodedDecodes(want[i].branches, r.value[i].branches);
      }
      assert r.value == want;
    }
  }

  lemma BrandCampaignsOfBrand(cs: seq<Campaign>, ls: seq<Link>, brandId: int)
    ensures OfBrand(BrandCampaigns(cs, ls, brandId), brandId)
  {
    var g := Grouped(cs, ls, brandId);
    var s := SortDesc(g);
    forall i | 0 <= i < |s| ensures s[i].brandId == brandId {
      assert s[i] in multiset(g);
    }
  }

  /** `GetCampaignsForBranch`: the active campaigns linked to the branch, one
      per link, in link-table order. */
  method GetCampaignsForBranch(db: BrandDb, branchId: int, fault: Fault) returns (r: Result<seq<Campaign>>)
    ensures FailsAt(fault, 0) ==> r == Err(DbFailure)
    ensures !FailsAt(fault, 0) ==> r == Ok(ForBranch(db.links, db.campaigns, branchId))
  {
    if FailsAt(fault, 0) {
      return Err(DbFailure);
    }
    var campaigns: seq<Campaign> := [];
    var i := |db.links|;
    while i > 0
      invariant 0 <= i <= |db.links|
      invariant campaigns == ForBranch(db.links[i..], db.campaigns, branchId)
    {
      i := i - 1;
      assert db.links[i..][1..] == db.links[i + 1..];
      var link := db.links[i];
      var camp := FindCampaign(db.campaigns, link.campaignId);
      if link.branchId == branchId && camp.Some? && camp.value.status == ActiveStatus {
        campaigns := [camp.value] + campaigns;
      }
    }
    return Ok(campaigns);
  }

  /** `GetBaseCampaignForBrand`: the brand's first "base" row, or None with
      no error. */
  method GetBaseCampaignForBrand(db: BrandDb, brandId: int, fault: Fault) returns (r: Result<Option<Campaign>>)
    ensures FailsAt(fault, 0) ==> r == Err(DbFailure)
    ensures !FailsAt(fault, 0) ==> r.Ok?
    ensures r.Ok? && r.value.Some? ==>
      r.value.value in db.campaigns && r.value.value.name == BaseName && r.value.value.brandId == brandId
    ensures r.Ok? ==> (r.value.None? <==>
      forall i :: 0 <= i < |db.campaigns| ==> !(db.campaigns[i].name == BaseName && db.campaigns[i].brandId == brandId))
    ensures r.Ok? ==> r.value == FindBase(db.campaigns, brandId)
  {
    if FailsAt(fault, 0) {
      return Err(DbFailure);
    }
    return Ok(FindBase(db.campaigns, brandId));
  }

  /** `UpdateCustomerCountCampaign`: the counter of the campaign with `c`'s id
      rises by one; nothing else changes. */
  method UpdateCustomerCountCampaign(db: BrandDb, c: Campaign, fault: Fault) returns (r: Outcome)
    modifies db
    ensures db.brands == old(db.brands) && db.branches == old(db.branches)
    ensures db.links == old(db.links) && db.outbox == old(db.outbox)
    ensures FailsAt(fault, 0) ==> r == Fail(DbFailure) && db.campaigns == old(db.campaigns)
    ensures !FailsAt(fault, 0) ==> r == Pass && db.campaigns == Bump(old(db.campaigns), c.id)
  {
    if FailsAt(fault, 0) {
      return Fail(DbFailure);
    }
    db.campaigns := Bump(db.campaigns, c.id);
    r := Pass;
  }
}
