# Loyalty ledger of the two Leal services

This project models the loyalty ledger that two Go services share. It is
written in Dafny, and the properties below are proved about the model.

**Brand service.** It keeps brands, branches, campaigns and the
`campaign_branches` links. Onboarding a brand also writes its fixed "base"
campaign. A new branch is linked to that base campaign. The service also
validates tokens and campaign dates.

When a purchase message arrives, the service:
- looks up the brand's base campaign;
- walks the active campaigns linked to the purchase's branch;
- increments the customer counter of every campaign whose amount and date windows hold the purchase;
- adds base × factor bonuses for those campaigns;
- publishes one apply-points order with the truncated totals.

**Customer service.** It keeps customers, per-brand point balances, a points
ledger, purchases and redemptions. It applies incoming apply-points orders in
three steps: a ledger row, a floored points upsert, and a floored `leal_coins`
update. Purchases debit coins, redemptions debit points, and a manual
adjustment moves points and the separate `coins` column.

**Shared by both.** The `Sanitize` string pipeline and the comma-separated
branch-id lists.

Each service's database and outgoing messages are one object: `BrandDb` in
`BrandStore` and `CustomerDb` in `CustomerStore`. Its fields are sequences of
rows in insertion order, and the model numbers a `SERIAL` id as the row's
position plus one (`Valid`). Every repository call is one method. It changes these fields by
exactly what its statements write to the tables, and it states that new state in terms of
pure table functions. Connection-pool state is not part of the model (see
"## Left out" on `PointsRepo.RecordPointsTransaction`).

A failing SQL statement or producer send is modelled by a `Fault` parameter:
`FailAt(k)` makes the k-th statement of that call fail. Every early-return
path is therefore stated, including what earlier steps leave written in the
tables (a used-up sequence value is not modelled; see "## Left out").
Publishing a message appends it to `outbox`.

Parameters stand for what the code calls but the model does not contain:
- hashing is the function parameter `hash`;
- a generated token is an `Option<string>` input, `None` when generation fails;
- the database clock is the input `now`.

Amounts and factors are exact reals, and Go's `int(x)` is truncation toward
zero (`Accrual.Trunc`). Dates are Unix seconds.

The code is followed where it and its comments disagree:
- `GetCustomerByID` and `GetCustomerByEmail` never return nil, because they pass `sql.ErrNoRows` through.
  - `customerService.ValidateToken` therefore answers an unknown id with that error (`NoRows`), not with "customer not found".
  - `LoginCustomer`'s "brand not found" branch cannot be reached.
- The same goes for a purchase by an unknown customer, and for a redemption without a points row: both give `NoRows`.
- `Sanitize`'s comment promises trimmed output, but trimming runs before filtering. `Sanitizer.SanitizeMayStartWithSpace` shows an input whose result starts with a space.
- The character class `[^\w\s,.-@]` reads `.-@` as a range, so `-` is removed (`Sanitizer.SanitizeRemovesHyphen`).
- `GetCampaignsForBranch` does not leave out the "base" campaign, to which every branch is linked. A purchase inside the base windows therefore earns the base factors a second time, as a bonus (`BrandEvents.BaseAlsoBonus`, `BrandEvents.FreshBranchPurchase`).
- The coin guard of `ProcessPurchase` and the points guard of `RedeemReward` do not reject a negative amount. Such an amount raises the balance (`CustomerPurchases.GuardedDebit`, `Redeems.GuardedSpend`).

## Model

| member | source | states |
|---|---|---|
| Wrappers.Greatest0 | customer_leal_service/internal/infrastructure/db/postgres_coins_repository.go:36 | SQL `GREATEST(x, 0)`: the result is never negative, is at least `x`, and is `x` or 0 |
| Decimal.AtoiIntText | brand_leal_service/internal/infrastructure/db/postgres_campaign_repository.go:105-139 | `strconv.Atoi` reads back, as that value, every 64-bit id that PostgreSQL's `integer::TEXT` writes |
| Decimal.IntTextHasNoComma | brand_leal_service/internal/infrastructure/db/postgres_campaign_repository.go:105 | an id's text never holds a comma, so `STRING_AGG(..., ',')` can be split back |
| Decimal.AtoiRejects | brand_leal_service/internal/infrastructure/util/util.go:91-94 | `Atoi` fails on any character, other than a leading sign, that is not a digit |
| BranchIds.Split | brand_leal_service/internal/infrastructure/util/util.go:87 | `strings.Split(s, ",")` gives at least one piece, and no piece holds a comma |
| BranchIds.JoinSplit | brand_leal_service/internal/infrastructure/util/util.go:87 | joining the pieces with commas gives back the input, so splitting loses and reorders nothing |
| BranchIds.SplitJoin | brand_leal_service/internal/infrastructure/db/postgres_campaign_repository.go:105-138 | splitting comma-free pieces joined with commas gives back exactly those pieces |
| BranchIds.EncodeIdsEmpty | brand_leal_service/internal/infrastructure/db/postgres_campaign_repository.go:105-137 | the aggregated column is empty exactly when the campaign has no links |
| BranchIds.DecodeEncoded | brand_leal_service/internal/infrastructure/db/postgres_campaign_repository.go:137-145 | an aggregated list of 64-bit ids splits into one piece per id, and each piece parses to its id |
| BranchIds.EncodedDecodes | brand_leal_service/internal/infrastructure/db/postgres_campaign_repository.go:105-145 | an aggregated list of 64-bit ids always decodes, and only to the list it was written from |
| BranchIds.DecodePieces | brand_leal_service/internal/infrastructure/db/postgres_campaign_repository.go:138-144 | the decode loop gives one parsed id per piece, in order, and fails exactly when some piece does not parse |
| BranchIds.DecodeIds | brand_leal_service/internal/infrastructure/db/postgres_campaign_repository.go:137-145 | an empty column is no branches; otherwise one id per comma piece, in order; it fails iff a piece does not parse; an encoded 64-bit list decodes to itself |
| BranchIds.ParsePieces | brand_leal_service/internal/infrastructure/util/util.go:88-96 | on success one entry per piece, each the trimmed piece parsed; otherwise the error quotes the first failing piece, untrimmed, and no list is returned |
| BranchIds.ParseBranchIDs | brand_leal_service/internal/infrastructure/util/util.go:81-99 | the empty string gives "branch_ids cannot be empty"; otherwise the result is one trimmed-and-parsed entry per comma piece, in order, or the first failing piece's error |
| Sanitizer.TrimSpace | brand_leal_service/internal/infrastructure/util/util.go:42 | `strings.TrimSpace`: no longer than the input, and neither end is a Unicode space |
| Sanitizer.TrimSpaceSpec | brand_leal_service/internal/infrastructure/util/util.go:42 | `strings.TrimSpace` returns the input without its leading and trailing Unicode spaces: it is the slice starting after the leading spaces, and only spaces follow it |
| Sanitizer.Strip | brand_leal_service/internal/infrastructure/util/util.go:49-50 | after the `[^\w\s,.-@]` filter every character is allowed and comes from the input |
| Sanitizer.StripSpec | brand_leal_service/internal/infrastructure/util/util.go:49-50 | the filter works character by character and in order: it distributes over concatenation, and it keeps one character exactly when that character is allowed |
| Sanitizer.StripAllowed | brand_leal_service/internal/infrastructure/util/util.go:49-50 | text made only of allowed characters passes the filter unchanged |
| Sanitizer.Collapse | brand_leal_service/internal/infrastructure/util/util.go:53-54 | the `\s+` replacement never lengthens its input, is empty only for empty input, and keeps a non-space first character |
| Sanitizer.CollapseAppend | brand_leal_service/internal/infrastructure/util/util.go:53-54 | the text before a non-`\s` boundary and the text after it collapse independently |
| Sanitizer.CollapseRun | brand_leal_service/internal/infrastructure/util/util.go:53-54 | any maximal run of `\s` characters, whatever its length and mix, becomes exactly one `' '` between the collapsed text on either side |
| Sanitizer.CollapseSolidText | brand_leal_service/internal/infrastructure/util/util.go:53-54 | text without `\s` is left unchanged |
| Sanitizer.CollapseChars | brand_leal_service/internal/infrastructure/util/util.go:53-54 | collapsing filtered text leaves only allowed non-space characters and single spaces |
| Sanitizer.CollapseNoRuns | brand_leal_service/internal/infrastructure/util/util.go:53-54 | after collapsing, no two adjacent characters are both `\s` |
| Sanitizer.SolidCollapse | brand_leal_service/internal/infrastructure/util/util.go:53-54 | collapsing removes and inserts only whitespace |
| Sanitizer.SolidStrip | brand_leal_service/internal/infrastructure/util/util.go:49-50 | the filter keeps every allowed non-space character, in order |
| Sanitizer.SolidTrimSpace | brand_leal_service/internal/infrastructure/util/util.go:42 | trimming never removes a character the filter would keep |
| Sanitizer.Sanitize | brand_leal_service/internal/infrastructure/util/util.go:40-57 | the output is no longer than the input, holds only word characters, `,`, `.`..`@` and single spaces, and has no two adjacent whitespace characters |
| Sanitizer.SanitizeSpaceRun | brand_leal_service/internal/infrastructure/util/util.go:40-57 | between two pieces of allowed text with solid ends, a whitespace run of any length becomes one space, and each piece is sanitized as if it stood alone |
| Sanitizer.SanitizeSolidText | brand_leal_service/internal/infrastructure/util/util.go:40-57 | text of allowed non-whitespace characters only comes back unchanged |
| Sanitizer.SanitizeJoinsWords | customer_leal_service/internal/infrastructure/util/util.go:36-53 | two solid words separated by `" \t\n "` come out separated by a single space |
| Sanitizer.SanitizeKeepsOrder | customer_leal_service/internal/infrastructure/util/util.go:36-53 | apart from whitespace, the output is exactly the input's allowed characters in input order |
| Sanitizer.SanitizeRemovesHyphen | customer_leal_service/internal/infrastructure/util/util.go:45-46 | `-` never survives, because `.-@` is a range |
| Sanitizer.SanitizeMayStartWithSpace | customer_leal_service/internal/infrastructure/util/util.go:38-50 | trimming before filtering leaves `"é a"` as `" a"`: the output need not be trimmed |
| BrandStore.FindCampaign | brand_leal_service/internal/infrastructure/db/postgres_campaign_repository.go:54-61 | the row with that id, or None exactly when no row has it |
| BrandStore.FindCampaignUnique | brand_leal_service/internal/infrastructure/db/postgres_campaign_repository.go:54 | with unique ids, every row is found by its own id |
| BrandStore.FindBase | brand_leal_service/internal/infrastructure/db/postgres_campaign_repository.go:213-226 | a "base" row of the brand, or None exactly when the brand has none |
| BrandStore.FindBaseAppend | brand_leal_service/internal/infrastructure/db/postgres_campaign_repository.go:213-216 | appending a row changes the base lookup only when the brand had no base row before and the new row is "base" |
| BrandStore.Bump | brand_leal_service/internal/infrastructure/db/postgres_campaign_repository.go:237 | the counter of every row with that id rises by one, and every other row is unchanged |
| BrandStore.BumpAllCounts | brand_leal_service/internal/application/events.go:58-69 | after a run of increments, each row's counter has risen by the number of times its id was incremented, and nothing else changed |
| BrandStore.UpdateRows | brand_leal_service/internal/infrastructure/db/postgres_campaign_repository.go:73-74 | only rows matching both id and brand change, and only in the set columns; id, brand, status and counter of every row are kept |
| BrandStore.LinksOf | brand_leal_service/internal/infrastructure/db/postgres_campaign_repository.go:105-109 | the campaign's linked branch ids: exactly the ids of its link rows |
| BrandStore.LinksOfAppend | brand_leal_service/internal/infrastructure/db/postgres_campaign_repository.go:42-47 | appending link rows appends their ids to the campaign's list |
| BrandStore.DropLinks | brand_leal_service/internal/infrastructure/db/postgres_campaign_repository.go:80 | the delete keeps exactly the link rows of other campaigns |
| BrandStore.LinksFor | brand_leal_service/internal/infrastructure/db/postgres_campaign_repository.go:42-47 | one link row per given branch id, in order |
| BrandStore.LinksOfDropLinks | brand_leal_service/internal/infrastructure/db/postgres_campaign_repository.go:80 | after the delete the campaign has no links, and every other campaign keeps its list |
| BrandStore.LinksOfLinksFor | brand_leal_service/internal/infrastructure/db/postgres_campaign_repository.go:86-91 | the inserted rows link that campaign to exactly the given ids, in order, and no other campaign |
| BrandStore.ReplaceLinks | brand_leal_service/internal/infrastructure/db/postgres_campaign_repository.go:79-91 | delete-then-insert links the campaign to exactly the new ids, and every other campaign keeps its links |
| BrandStore.ForBranch | brand_leal_service/internal/infrastructure/db/postgres_campaign_repository.go:182-188 | the join returns stored campaigns, all of them active |
| BrandStore.ForBranchMembers | brand_leal_service/internal/infrastructure/db/postgres_campaign_repository.go:181-204 | a campaign comes back for a branch iff it is stored, active and linked to that branch |
| BrandStore.FindBrand | brand_leal_service/internal/infrastructure/db/postgres_brand_repository.go:18-24 | the brand with that id, or None exactly when none has it |
| BrandStore.FindBrandByName | brand_leal_service/internal/infrastructure/db/postgres_brand_repository.go:35-41 | a brand with that name, or None exactly when none has it |
| BrandStore.SetToken | brand_leal_service/internal/infrastructure/db/postgres_brand_repository.go:84 | only the token of the brand with that id changes |
| BrandStore.BranchesOf | brand_leal_service/internal/infrastructure/db/postgres_branch_repository.go:74 | all and only the brand's branch rows, each carrying that brand id |
| CampaignRepo.Stored | brand_leal_service/internal/infrastructure/db/postgres_campaign_repository.go:28-32 | the inserted row gets the new id, counter 0 and no branch list, and all other columns come from the input |
| CampaignRepo.InsertLinks | brand_leal_service/internal/infrastructure/db/postgres_campaign_repository.go:42-47 | one link per id, in order; the first failing insert stops the loop and keeps the earlier links |
| CampaignRepo.CreateCampaign | brand_leal_service/internal/infrastructure/db/postgres_campaign_repository.go:26-50 | a failed insert writes nothing; "base" gets no links; any other name links each given id; the result carries the new id |
| CampaignRepo.GetCampaignByID | brand_leal_service/internal/infrastructure/db/postgres_campaign_repository.go:53-65 | the row with that id, or None with no error when absent |
| CampaignRepo.UpdateCampaign | brand_leal_service/internal/infrastructure/db/postgres_campaign_repository.go:72-94 | the update, then the delete, then one insert per id, each failure stopping the rest; a failed delete leaves every link in place; on success the campaign is linked to exactly the given ids, and no other campaign's links change |
| CampaignRepo.Grouped | brand_leal_service/internal/infrastructure/db/postgres_campaign_repository.go:101-113 | every grouped row belongs to the brand and carries its linked ids |
| CampaignRepo.GroupedMembers | brand_leal_service/internal/infrastructure/db/postgres_campaign_repository.go:101-113 | a campaign is grouped iff it is a stored row of the brand, with its linked ids |
| CampaignRepo.InsertDesc | brand_leal_service/internal/infrastructure/db/postgres_campaign_repository.go:114-115 | inserting one row adds exactly that row: the multiset grows by it |
| CampaignRepo.InsertDescSorted | brand_leal_service/internal/infrastructure/db/postgres_campaign_repository.go:114-115 | inserting into a list sorted newest-start-first keeps it sorted |
| CampaignRepo.SortDesc | brand_leal_service/internal/infrastructure/db/postgres_campaign_repository.go:114-115 | `ORDER BY start_date DESC` is a permutation of its rows |
| CampaignRepo.SortDescSorted | brand_leal_service/internal/infrastructure/db/postgres_campaign_repository.go:114-115 | its result is in non-increasing start-date order |
| CampaignRepo.BrandCampaignsSpec | brand_leal_service/internal/infrastructure/db/postgres_campaign_repository.go:96-115 | the brand's campaign listing is sorted newest first and is a permutation of the grouped rows |
| CampaignRepo.BrandCampaignsOfBrand | brand_leal_service/internal/infrastructure/db/postgres_campaign_repository.go:111-147 | every listed campaign belongs to the brand |
| CampaignRepo.QueryRows | brand_leal_service/internal/infrastructure/db/postgres_campaign_repository.go:101-117 | one row per listed campaign, in order, with its ids written as comma text |
| CampaignRepo.DecodeRow | brand_leal_service/internal/infrastructure/db/postgres_campaign_repository.go:128-147 | a row decodes iff its id text does; the result is the scanned campaign with the decoded ids and the brand id set |
| CampaignRepo.DecodeRows | brand_leal_service/internal/infrastructure/db/postgres_campaign_repository.go:124-150 | every row is decoded in order; it fails with the `Atoi` error only if some row's text does not decode |
| CampaignRepo.GetCampaignsByBrandID | brand_leal_service/internal/infrastructure/db/postgres_campaign_repository.go:100-151 | a query failure is an error; a success lists the brand's campaigns newest first and, when all ids fit 64 bits, is exactly them with their linked ids |
| CampaignRepo.GetCampaignsForBranch | brand_leal_service/internal/infrastructure/db/postgres_campaign_repository.go:181-204 | the row loop returns the active campaigns linked to the branch, one per link, in link order |
| CampaignRepo.GetBaseCampaignForBrand | brand_leal_service/internal/infrastructure/db/postgres_campaign_repository.go:212-230 | the brand's base row, or None with no error when it has none |
| CampaignRepo.UpdateCustomerCountCampaign | brand_leal_service/internal/infrastructure/db/postgres_campaign_repository.go:236-240 | the counter of exactly the given campaign rises by one, and nothing else changes |
| BranchRepo.CreateBranch | brand_leal_service/internal/infrastructure/db/postgres_branch_repository.go:20-30 | the row and the result carry the new id, the given brand and name and the database date; a failed insert writes nothing |
| BranchRepo.LinkBranchToBaseCampaign | brand_leal_service/internal/infrastructure/db/postgres_branch_repository.go:37-67 | without a base campaign it gives "base campaign not found for the given brand_id" and writes nothing; on success it adds exactly one (base id, branch id) link |
| BranchRepo.GetBranchesByBrandID | brand_leal_service/internal/infrastructure/db/postgres_branch_repository.go:73-90 | the row loop returns all and only the brand's branches, in table order, each with that brand id |
| BrandRepo.CreateBrand | brand_leal_service/internal/infrastructure/db/postgres_brand_repository.go:68-78 | the row stores name, hash and token; the result carries id, name, token and date but no hash |
| BrandRepo.GetBrandByName | brand_leal_service/internal/infrastructure/db/postgres_brand_repository.go:34-45 | the row with that name, hash included, or None with no error |
| BrandRepo.GetBrandByID | brand_leal_service/internal/infrastructure/db/postgres_brand_repository.go:17-28 | the row with that id without its hash, or None with no error |
| BrandRepo.UpdateBrandToken | brand_leal_service/internal/infrastructure/db/postgres_brand_repository.go:83-87 | only the token of that brand changes |
| BrandUsecases.CreateBrand | brand_leal_service/internal/application/usecases.go:51-87 | empty name or password, then a failed token, are rejected before any write; then the brand row, then the fixed base campaign; a failed base insert keeps the brand row |
| BrandUsecases.OnboardedBase | brand_leal_service/internal/application/usecases.go:68-81 | the new brand's base row is "base", 0..1e9, 2000-01-01..2100-01-01, factors 0.001, count 0, "active", with no branches |
| BrandUsecases.TokenCheck | brand_leal_service/internal/application/usecases.go:126-138 | "brand not found" for a missing brand, "invalid token" on mismatch, and success iff the stored token equals the given one |
| BrandUsecases.ValidateToken | brand_leal_service/internal/application/usecases.go:126-138 | a lookup failure gives its error; otherwise the answer is `TokenCheck` of the stored table |
| BrandUsecases.LoginBrand | brand_leal_service/internal/application/usecases.go:90-121 | each guard, in order, fails before any write (wrong password gives "invalid password"); on success the stored token is replaced and the returned brand carries it |
| BrandUsecases.LoginThenValidate | brand_leal_service/internal/application/usecases.go:115-136 | after a login's token update the brand validates with the new token, and every other brand's answers are unchanged |
| BrandUsecases.CreateBranch | brand_leal_service/internal/application/usecases.go:144-158 | the branch row, then its link to the base campaign; a link failure is returned and the branch row stays |
| BrandUsecases.CreateCampaign | brand_leal_service/internal/application/usecases.go:168-174 | a start strictly after the end is rejected before any write, and equal dates pass; otherwise the repository insert |
| BrandUsecases.UpdateCampaign | brand_leal_service/internal/application/usecases.go:181-194 | a lookup error, an unknown id ("campaign not found") and the date guard each fail before any write; otherwise the repository update, where a failed delete leaves the links in place; on success the links are exactly the given ids |
| Accrual.MatchesAtBounds | brand_leal_service/internal/application/events.go:59-64 | a campaign matches at both ends of both windows: all bounds are inclusive |
| Accrual.Matched | brand_leal_service/internal/application/events.go:58-64 | the campaigns the loop does not skip, which are exactly the listed campaigns that match |
| Accrual.StopsInside | brand_leal_service/internal/application/events.go:58-69 | when the loop stops at a matched campaign, what it matched so far is a proper prefix of the full match |
| Accrual.NonCompounding | brand_leal_service/internal/application/events.go:71-72 | the bonus sum is the base times the sum of the matched factors: bonuses do not compound |
| Accrual.Trunc | brand_leal_service/internal/application/events.go:79-80 | Go's `int(x)`: the integer part, toward zero, for either sign |
| Accrual.AwardSpec | brand_leal_service/internal/application/events.go:48-82 | the order's points and coins are trunc(base × (1 + Σ matched factors)) |
| Accrual.AccrueSpec | brand_leal_service/internal/application/events.go:45-82 | the order carries the purchase's customer and brand, reason "purchase", and trunc(amount × base factor × (1 + Σ matched factors)) |
| BrandEvents.SendApplyPointsEvent | brand_leal_service/internal/application/events.go:95-98 | the order is appended to the outbox on the configured apply-points topic; a failed send publishes nothing |
| BrandEvents.ProcessPurchase | brand_leal_service/internal/application/events.go:34-90 | lookup failures return their messages without writing; otherwise the matched campaigns are incremented in order until an increment fails; a send failure keeps the increments; success publishes the `Accrue` order |
| BrandEvents.Credit | brand_leal_service/internal/application/events.go:58-86 | the loop and the send: the increments done, the error of a failed increment with nothing sent, then the send outcome |
| BrandEvents.ApplyCampaigns | brand_leal_service/internal/application/events.go:58-73 | the loop increments exactly the matched campaigns, in order, up to the first failure, and its totals are the bases plus those campaigns' bonuses |
| BrandEvents.Count | brand_leal_service/internal/application/events.go:66-69 | one counter increment adds that campaign to those bumped so far, or fails with everything unchanged |
| BrandEvents.AddBonuses | brand_leal_service/internal/application/events.go:71-72 | adding one matched campaign's bonuses keeps the totals equal to the bases plus the bonuses so far |
| BrandEvents.Stopped | brand_leal_service/internal/application/events.go:66-69 | a failed increment leaves exactly the increments of the matched campaigns before it |
| BrandEvents.Finished | brand_leal_service/internal/application/events.go:58-73 | a loop run to the end incremented every matched campaign |
| BrandEvents.TalliedAccrues | brand_leal_service/internal/application/events.go:76-82 | the truncated totals form exactly the order `Accrue` builds |
| BrandEvents.BaseAlsoBonus | brand_leal_service/internal/infrastructure/db/postgres_campaign_repository.go:181-188 | a base campaign linked to the branch, with windows holding the purchase, is also matched as a bonus campaign |
| BrandEvents.ForBranchDistinct | brand_leal_service/internal/infrastructure/db/postgres_campaign_repository.go:184-187 | without repeated link rows the branch query returns no campaign twice |
| BrandEvents.CountedOnce | brand_leal_service/internal/application/events.go:58-69 | without repeated link rows every matched campaign's counter rises by exactly one, and every other campaign is untouched |
| BrandEvents.FreshBranchPurchase | brand_leal_service/internal/application/events.go:45-82 | for a freshly onboarded brand with one branch, a 1,000,000 purchase in the base windows earns 1001 points and 1001 coins |
| CustomerStore.FindCustomer | customer_leal_service/internal/infrastructure/db/postgres_customer_repository.go:39-43 | the customer with that id, or None exactly when none has it |
| CustomerStore.FindCustomerByEmail | customer_leal_service/internal/infrastructure/db/postgres_customer_repository.go:51-55 | a customer with that email, or None exactly when none has it |
| CustomerStore.FindByEmailAppend | customer_leal_service/internal/infrastructure/db/postgres_customer_repository.go:22-51 | after an insert, an email lookup finds the earlier row if there was one, otherwise the new row if it matches |
| CustomerStore.SetToken | customer_leal_service/internal/infrastructure/db/postgres_customer_repository.go:64 | only the token of the customer with that id changes |
| CustomerStore.SetTokenFind | customer_leal_service/internal/infrastructure/db/postgres_customer_repository.go:63-67 | the token update keeps ids serial, gives the new token to that customer alone, and leaves every other lookup unchanged |
| CustomerStore.AddLealCoins | customer_leal_service/internal/infrastructure/db/postgres_coins_repository.go:36 | that customer's `leal_coins` becomes `GREATEST(old + delta, 0)`, and every other row is unchanged |
| CustomerStore.AddCoins | customer_leal_service/internal/infrastructure/db/postgres_points_repository.go:74 | that customer's `coins` rises by delta with no floor, and every other row is unchanged |
| CustomerStore.AddLealCoinsFloor | customer_leal_service/internal/infrastructure/db/postgres_coins_repository.go:35-39 | an unknown id changes nothing; a known one ends non-negative, at old + delta whenever that is non-negative |
| CustomerStore.AddCoinsOnly | customer_leal_service/internal/infrastructure/db/postgres_points_repository.go:72-80 | an unknown id changes nothing; a known one moves `coins` by delta, unclamped, and keeps `leal_coins` and everything else |
| CustomerStore.FindPoints | customer_leal_service/internal/infrastructure/db/postgres_points_repository.go:85-89 | the (customer, brand) row, or None exactly when there is none |
| CustomerStore.Upsert | customer_leal_service/internal/infrastructure/db/postgres_points_repository.go:48-54 | the upsert adds at most one row |
| CustomerStore.UpsertBalance | customer_leal_service/internal/infrastructure/db/postgres_points_repository.go:47-57 | the key's balance becomes max(delta, 0) when new, or max(old + delta, 0); every other key keeps its balance |
| CustomerStore.UpsertNonNegative | customer_leal_service/internal/infrastructure/db/postgres_points_repository.go:48-54 | after the upsert the key has a balance, and it is not negative |
| CustomerStore.UpsertUnique | customer_leal_service/internal/infrastructure/db/postgres_points_repository.go:51 | the upsert keeps the (customer, brand) key unique |
| CustomerStore.PointsOf | customer_leal_service/internal/infrastructure/db/postgres_points_repository.go:23 | every listed row belongs to the customer |
| CustomerStore.PointsOfMembers | customer_leal_service/internal/infrastructure/db/postgres_points_repository.go:22-40 | a row is listed iff it is the selected columns of one of the customer's stored rows |
| CustomerStore.PointsOfBalance | customer_leal_service/internal/infrastructure/db/postgres_points_repository.go:23-36 | each listed row carries that customer and the stored balance of its brand |
| PointsRepo.GetPointsByCustomerID | customer_leal_service/internal/infrastructure/db/postgres_points_repository.go:22-40 | the row loop returns exactly the customer's rows in table order, or the query's error |
| PointsRepo.UpdatePoints | customer_leal_service/internal/infrastructure/db/postgres_points_repository.go:47-57 | the floored upsert, and nothing else changes; a failure changes nothing |
| PointsRepo.RecordPointsTransaction | customer_leal_service/internal/infrastructure/db/postgres_points_repository.go:61-66 | exactly one ledger row is appended, with the given customer, brand, change and reason |
| PointsRepo.RecordCoins | customer_leal_service/internal/infrastructure/db/postgres_points_repository.go:72-80 | the `coins` column of that customer moves by the amount, unclamped |
| PointsRepo.GetPoinysByCustomerIDAndBrandID | customer_leal_service/internal/infrastructure/db/postgres_points_repository.go:84-92 | a missing row is `sql.ErrNoRows`, not nil; otherwise the brand id and the stored points |
| CoinsRepo.GetCoinsByCustomerID | customer_leal_service/internal/infrastructure/db/postgres_coins_repository.go:21-29 | the stored `leal_coins`, or `sql.ErrNoRows` for an unknown customer |
| CoinsRepo.UpdateCustomerCoins | customer_leal_service/internal/infrastructure/db/postgres_coins_repository.go:35-39 | the floored `leal_coins` update of that customer alone |
| CustomerRepo.CreateCustomer | customer_leal_service/internal/infrastructure/db/postgres_customer_repository.go:21-34 | the row stores the given fields with `leal_coins` 0; the result carries the id, name, email, phone and token but no hash |
| CustomerRepo.GetCustomerByID | customer_leal_service/internal/infrastructure/db/postgres_customer_repository.go:38-46 | an unknown id is `sql.ErrNoRows`; otherwise the selected columns of the row |
| CustomerRepo.GetCustomerByEmail | customer_leal_service/internal/infrastructure/db/postgres_customer_repository.go:50-59 | an unknown email is `sql.ErrNoRows`; otherwise the selected columns of the first row with it |
| CustomerRepo.UpdateCustomerToken | customer_leal_service/internal/infrastructure/db/postgres_customer_repository.go:63-67 | only the token of that customer changes |
| PurchasesRepo.RecordPurchase | customer_leal_service/internal/infrastructure/db/postgres_purchases_repository.go:19-29 | the purchase is stored and returned with the new id and the database date |
| RedeemedRepo.RedeemReward | customer_leal_service/internal/infrastructure/db/postgres_redeemed_repository.go:22-32 | the redemption is stored and returned with the new id and the database date |
| CustomerEvents.ProcessApplyPointsEvent | customer_leal_service/internal/application/events_usecases.go:29-50 | first the ledger row (order points, order reason), then the points upsert, then the `leal_coins` update; each failure stops the run and keeps the earlier writes |
| CustomerEvents.Applied | customer_leal_service/internal/application/events_usecases.go:39-48 | the key's points end at max(old + points, 0), or max(points, 0) for a new key, with other keys unchanged; `leal_coins` ends at max(old + coins, 0) |
| CustomerEvents.RedeliveryCreditsTwice | customer_leal_service/internal/application/events_usecases.go:29-50 | nothing deduplicates orders: the same non-negative order applied twice credits its points twice |
| CustomerEvents.SendPurchaseEvent | customer_leal_service/internal/application/events_usecases.go:57-61 | the purchase, unchanged, is appended on the purchase topic; a failed send publishes nothing |
| CustomerPurchases.ProcessPurchase | customer_leal_service/internal/application/purchases_usecases.go:23-53 | lookup failure, unknown customer and "not enough coins" (equality allowed) write nothing; then debit, record, publish, each failure keeping the earlier steps; success returns the recorded purchase |
| CustomerPurchases.GuardedDebit | customer_leal_service/internal/application/purchases_usecases.go:30-39 | a debit the guard allows drops `leal_coins` by exactly the coins used; a negative amount raises it |
| Redeems.RedeemReward | customer_leal_service/internal/application/redeems_usecases.go:26-66 | lookup failure, missing row and "not enough points" (equality allowed) write nothing; then the debit, the "Redeem reward" ledger row of minus the spend, and the redemption, each failure keeping the earlier steps |
| Redeems.GuardedSpend | customer_leal_service/internal/application/redeems_usecases.go:33-41 | a spend the guard allows drops the balance by exactly the spend; a negative spend raises it |
| PointsService.GetCustomerPoints | customer_leal_service/internal/application/points_usecases.go:18-20 | exactly the stored rows of the customer, or the query's error |
| PointsService.UpdatePoints | customer_leal_service/internal/application/points_usecases.go:25-52 | the ledger row (delta, reason), then the floored points upsert, then the same delta on `coins`; each failure skips the later steps |
| PointsService.Adjusted | customer_leal_service/internal/application/points_usecases.go:39-49 | an existing balance ends at max(old + delta, 0); `coins` moves by delta, unfloored; `leal_coins` stays |
| CustomerUsecases.CreateCustomer | customer_leal_service/internal/application/customer_usecases.go:22-34 | any empty field, then a failed token, are rejected before any write; the stored row holds the hash of the password and the new token |
| CustomerUsecases.SignUpThenLogIn | customer_leal_service/internal/application/customer_usecases.go:22-52 | for a new email, the signed-up row is the one a login finds, and its password check passes |
| CustomerUsecases.LoginCustomer | customer_leal_service/internal/application/customer_usecases.go:41-65 | lookup error (an unknown email is `sql.ErrNoRows`), "invalid password" and a failed token leave the token unchanged; on success the token is replaced and returned |
| CustomerUsecases.TokenCheck | customer_leal_service/internal/application/customer_usecases.go:75-87 | `sql.ErrNoRows` for a missing customer, "invalid token" on mismatch, and success iff the tokens are equal |
| CustomerUsecases.ValidateToken | customer_leal_service/internal/application/customer_usecases.go:75-87 | a lookup failure gives its error; otherwise the answer is `TokenCheck` of the stored table |
| CustomerUsecases.LoginThenValidate | customer_leal_service/internal/application/customer_usecases.go:59-83 | after a login's token update the customer validates with the new token, and every other customer's answers are unchanged |

## Left out

- The HTTP layer (handlers, router, request types) and both `cmd/main.go` are left out: request binding, status codes and process wiring, with no ledger logic.
- The message broker (sarama listener and producer) is left out. Publishing is an append to `outbox`, and consuming an order is a call of `ProcessApplyPointsEvent`. The listener's acknowledgement behaviour is not modelled.
- Configuration is left out; the topics are the constants `applyTopic` and `purchaseTopic` of the two database objects.
- `HashPassword`/`CheckPassHash` are the parameter `hash`, compared by equality; `GenerateToken` is an optional input; `ParseDate` is left out, since dates arrive as integers.
- The database clock is the input `now`. The transaction date and the registration dates the database fills in are not modelled; loaded customers carry 0 for the unselected registration date.
- `strings.ToValidUTF8` is left out: strings are sequences of code points, which are always valid.
- float64 rounding is not modelled: amounts and factors are exact reals, so a total that float64 rounds across an integer can truncate differently in Go.
- Concurrency and transactions are left out: each repository call is one atomic step, and interleavings of requests and consumers are not modelled.
- SQL rows without `ORDER BY` come back in table order (link-table order for joins). Ties of `ORDER BY start_date DESC` keep table order.
- The error of a `rows.Scan` inside a row loop is not modelled; a query either fails as a whole or returns all rows.
- `strconv.Atoi`'s two error kinds (syntax, range) are one failure.
- 64-bit overflow of points, coins and counters is not modelled; integers are unbounded.
- Uniqueness of brand names and customer emails is not enforced by the model; the lookups return the first matching row.
- `GetBranchesForCampaign`, `GetBrandByNameAndPass` and the pass-through services (`coins_usecases.go`, `GetCustomerByID`, `GetBranches`, `GetCampaigns`, the reward service) are left out. They only forward a repository call, and none of the modelled operations uses them.
- The "brand not found" check in `LoginCustomer` and the "customer not found" check in `customerService.ValidateToken` are not modelled. The repository returns an error instead of nil, so neither can be reached.
- CampaignRepo.GetCampaignsByBrandID: states the exact result only when every linked id fits a 64-bit int. For larger ids it states only that each campaign's other fields match, because `Atoi` cannot read such text back.
- Sanitizer.TrimSpace: its own contract states only that neither end of the result is a Unicode space. Which slice of the input it returns is stated by `Sanitizer.TrimSpaceSpec`, kept apart so that the callers' proofs stay small.
- Sanitizer.Strip: its own contract states only that each kept character is allowed and comes from the input. That it keeps every allowed character, in order, is stated by `Sanitizer.StripSpec`.
- Sanitizer.Collapse: its own contract does not say how whitespace runs are replaced. That each maximal run becomes one space and every other character stays is stated by `Sanitizer.CollapseRun`, `Sanitizer.CollapseAppend` and `Sanitizer.CollapseSolidText`.
- Sanitizer.Sanitize: its own contract bounds the output's characters and rules out adjacent whitespace, but does not say where spaces go. The whitespace behaviour is stated by `Sanitizer.SanitizeSpaceRun` and `Sanitizer.SanitizeSolidText`, and the order of the other characters by `Sanitizer.SanitizeKeepsOrder`.
- Gaps in `SERIAL` ids are not modelled. PostgreSQL does not give a sequence value back: a failed `INSERT` that reached the server uses one up, and so does every conflicting `INSERT ... ON CONFLICT DO UPDATE` on `leal_points`. The duplicate brand name that `CreateBrand` expects is one such failed insert. In the real database the ids returned by `CreateBrand`, `CreateBranch`, `CreateCampaign`, `CreateCustomer`, `RecordPurchase` and `RedeemReward` can therefore be larger than the row count plus one. The model numbers rows by position; the ids stay unique and increasing in both the model and PostgreSQL, and no modelled operation depends on there being no gaps.
- PointsRepo.RecordPointsTransaction and PointsRepo.RecordCoins: the Go code runs their `INSERT` and `UPDATE` with `db.Query` and discards the returned `*sql.Rows` without closing them (postgres_points_repository.go:64 and :75), so each call keeps one pooled connection checked out for good; `sql.Open` in customer_leal_service/cmd/main.go:28 sets no pool limit. Every `CustomerEvents.ProcessApplyPointsEvent` and `Redeems.RedeemReward` therefore leaks one connection and every `PointsService.UpdatePoints` leaks two, until PostgreSQL refuses new clients and every later statement fails. The model has no connection pool: the tables change exactly as stated, and the eventual exhaustion appears only as the failures any `Fault` parameter can inject, with nothing tying them to the number of earlier calls.
