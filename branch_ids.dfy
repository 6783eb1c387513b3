/** Comma-separated branch-id lists: `util.ParseBranchIDs` (request input) and
    the `branch_ids` column that `GetCampaignsByBrandID` aggregates with
    `STRING_AGG(branch_id::TEXT, ',')` and splits back. */
module BranchIds {
  import opened Wrappers
  import opened Decimal
  import Sanitizer

  /** `strings.Split(s, ",")`: the pieces between commas, at least one. */
  function Split(s: string): (r: seq<string>)
    ensures |r| >= 1
    ensures forall i :: 0 <= i < |r| ==> ',' !in r[i]
  {
    if s == [] then [[]]
    else
      var rest := Split(s[1..]);
      if s[0] == ',' then [[]] + rest
      else [[s[0]] + rest[0]] + rest[1..]
  }

  /** `strings.Join(parts, ",")`; also what `STRING_AGG(..., ',')` builds. */
  function Join(parts: seq<string>): string
  {
    if parts == [] then []
    else if |parts| == 1 then parts[0]
    else parts[0] + "," + Join(parts[1..])
  }

  lemma {:induction false} JoinSplit(s: string)
    ensures Join(Split(s)) == s
  {
    if s != [] {
      JoinSplit(s[1..]);
      var rest := Split(s[1..]);
      if s[0] == ',' {
        assert Split(s)[1..] == rest;
      } else {
        var r := Split(s);
        assert r[1..] == rest[1..];
        if |rest| == 1 {
          assert Join(r) == [s[0]] + rest[0];
        } else {
          assert Join(r) == [s[0]] + rest[0] + "," + Join(rest[1..]);
        }
      }
    }
  }

  lemma {:induction false} SplitNoComma(p: string)
    requires ',' !in p
    ensures Split(p) == [p]
  {
    if p != [] {
      SplitNoComma(p[1..]);
      assert [p[0]] + p[1..] == p;
    }
  }

  lemma {:induction false} SplitAppend(p: string, t: string)
    requires ',' !in p
    ensures Split(p + "," + t) == [p] + Split(t)
  {
    if p == [] {
      assert p + "," + t == [','] + t;
      assert ([','] + t)[1..] == t;
    } else {
      SplitAppend(p[1..], t);
      assert (p + "," + t)[1..] == p[1..] + "," + t;
      assert [p[0]] + p[1..] == p;
    }
  }

  /** Splitting undoes joining when no piece holds a comma. */
  lemma {:induction false} SplitJoin(parts: seq<string>)
    requires |parts| >= 1
    requires forall i :: 0 <= i < |parts| ==> ',' !in parts[i]
    ensures Split(Join(parts)) == parts
  {
    if |parts| == 1 {
      SplitNoComma(parts[0]);
    } else {
      SplitJoin(parts[1..]);
      SplitAppend(parts[0], Join(parts[1..]));
      assert [parts[0]] + parts[1..] == parts;
    }
  }

  /** The per-row texts that `STRING_AGG` concatenates. */
  function Texts(ids: seq<int>): (r: seq<string>)
    ensures |r| == |ids|
    ensures forall i :: 0 <= i < |ids| ==> r[i] == IntText(ids[i])
  {
    if ids == [] then [] else [IntText(ids[0])] + Texts(ids[1..])
  }

  /** `COALESCE(STRING_AGG(cb.branch_id::TEXT, ','), '')`. */
  function EncodeIds(ids: seq<int>): string
  {
    Join(Texts(ids))
  }

  lemma SplitEncodeIds(ids: seq<int>)
    requires ids != []
    ensures Split(EncodeIds(ids)) == Texts(ids)
  {
    forall i | 0 <= i < |ids| ensures ',' !in Texts(ids)[i] {
      IntTextHasNoComma(ids[i]);
    }
    SplitJoin(Texts(ids));
  }

  lemma {:induction false} EncodeIdsEmpty(ids: seq<int>)
    ensures EncodeIds(ids) == [] <==> ids == []
  {
    if ids != [] {
      NatTextDigits(if ids[0] < 0 then -ids[0] else ids[0]);
      var t := Texts(ids);
      assert |t[0]| >= 1;
      if |t| > 1 {
        assert |Join(t)| >= |t[0]|;
      }
    }
  }

  /** Every piece of an encoded list reads back as the id it was written from. */
  lemma DecodeEncoded(ids: seq<int>)
    requires ids != []
    requires forall i :: 0 <= i < |ids| ==> IsInt64(ids[i])
    ensures |Split(EncodeIds(ids))| == |ids|
    ensures forall i :: 0 <= i < |ids| ==> Atoi(Split(EncodeIds(ids))[i]) == Some(ids[i])
  {
    SplitEncodeIds(ids);
    forall i | 0 <= i < |ids| ensures Atoi(Texts(ids)[i]) == Some(ids[i]) {
      AtoiIntText(ids[i]);
    }
  }

  predicate AllInt64(ids: seq<int>)
  {
    forall i :: 0 <= i < |ids| ==> IsInt64(ids[i])
  }

  /** The decode loop of `GetCampaignsByBrandID`: every piece goes through
      `strconv.Atoi`, in order, and the first piece that does not parse makes
      the whole read fail. */
  method DecodePieces(pieces: seq<string>) returns (r: Option<seq<int>>)
    ensures r.Some? ==>
      |r.value| == |pieces| && forall i :: 0 <= i < |pieces| ==> Atoi(pieces[i]) == Some(r.value[i])
    ensures r.None? <==> exists i :: 0 <= i < |pieces| && Atoi(pieces[i]).None?
  {
    var branches: seq<int> := [];
    var i := 0;
    while i < |pieces|
      invariant 0 <= i <= |pieces|
      invariant |branches| == i
      invariant forall j :: 0 <= j < i ==> Atoi(pieces[j]) == Some(branches[j])
    {
      var branchId := Atoi(pieces[i]);
      if branchId.None? {
        return None;
      }
      branches := branches + [branchId.value];
      i := i + 1;
    }
    return Some(branches);
  }

  /** Whether every piece of a non-empty column parses. */
  predicate DecodeIdsOk(branchIds: string)
  {
    branchIds == [] || forall i :: 0 <= i < |Split(branchIds)| ==> Atoi(Split(branchIds)[i]).Some?
  }

  /** `ids` is what decoding `branchIds` gives: nothing for the empty text,
      otherwise one parsed value per piece, in order. */
  predicate DecodedAs(branchIds: string, ids: seq<int>)
  {
    if branchIds == [] then ids == []
    else |ids| == |Split(branchIds)| && forall i :: 0 <= i < |ids| ==> Atoi(Split(branchIds)[i]) == Some(ids[i])
  }

  /** An encoded list of 64-bit ids always decodes, and only to itself. */
  lemma EncodedDecodes(ids: seq<int>, got: seq<int>)
    requires AllInt64(ids)
    ensures DecodeIdsOk(EncodeIds(ids))
    ensures DecodedAs(EncodeIds(ids), got) ==> got == ids
  {
    EncodeIdsEmpty(ids);
    if ids != [] {
      DecodeEncoded(ids);
      if DecodedAs(EncodeIds(ids), got) {
        forall i | 0 <= i < |ids| ensures got[i] == ids[i] {
          assert Atoi(Split(EncodeIds(ids))[i]) == Some(got[i]);
        }
      }
    }
  }

  /** The `branch_ids` column of one campaign row, decoded: an empty column is
      no branches, anything else is split on commas and decoded piece by
      piece. The result is the list of ids that was encoded, whenever every id
      fits a 64-bit int. */
  method DecodeIds(branchIds: string) returns (r: Option<seq<int>>)
    ensures branchIds == [] ==> r == Some([])
    ensures r.Some? && branchIds != [] ==>
      |r.value| == |Split(branchIds)|
      && forall i :: 0 <= i < |r.value| ==> Atoi(Split(branchIds)[i]) == Some(r.value[i])
    ensures r.None? <==>
      branchIds != [] && exists i :: 0 <= i < |Split(branchIds)| && Atoi(Split(branchIds)[i]).None?
    ensures r.Some? <==> DecodeIdsOk(branchIds)
    ensures r.Some? ==> DecodedAs(branchIds, r.value)
    ensures forall ids :: (branchIds == EncodeIds(ids) && AllInt64(ids)) ==> r == Some(ids)
  {
    if branchIds == [] {
      r := Some([]);
    } else {
      r := DecodePieces(Split(branchIds));
    }
    forall ids | branchIds == EncodeIds(ids) && AllInt64(ids) ensures r == Some(ids) {
      EncodeIdsEmpty(ids);
      if ids != [] {
        DecodeEncoded(ids);
        assert r.Some?;
        assert r.value == ids;
      }
    }
  }

  /** One piece of `ParseBranchIDs`: `strconv.Atoi(strings.TrimSpace(p))`. */
  function ParsePiece(p: string): Option<int>
  {
    Atoi(Sanitizer.TrimSpace(p))
  }

  /** The position at which the parse loop stops, and the error it returns. */
  predicate StopsAt(idStrings: seq<string>, k: int, e: Error)
  {
    0 <= k < |idStrings|
    && ParsePiece(idStrings[k]).None?
    && (forall j :: 0 <= j < k ==> ParsePiece(idStrings[j]).Some?)
    && e == Failure("invalid branch_id: " + idStrings[k])
  }

  /** The loop of `util.ParseBranchIDs` over the split pieces: each piece is
      trimmed and parsed into the slot of the same index, and the first piece
      that does not parse aborts with an error that quotes it untrimmed. */
  method ParsePieces(idStrings: seq<string>) returns (r: Result<seq<int>>)
    ensures r.Ok? ==>
      |r.value| == |idStrings|
      && forall i :: 0 <= i < |r.value| ==> ParsePiece(idStrings[i]) == Some(r.value[i])
    ensures r.Err? ==> exists k :: StopsAt(idStrings, k, r.error)
  {
    var ids := new int[|idStrings|];
    for i := 0 to |idStrings|
      invariant forall j :: 0 <= j < i ==> ParsePiece(idStrings[j]) == Some(ids[j])
    {
      var id := ParsePiece(idStrings[i]);
      if id.None? {
        r := Err(Failure("invalid branch_id: " + idStrings[i]));
        assert StopsAt(idStrings, i, r.error);
        return;
      }
      ids[i] := id.value;
    }
    r := Ok(ids[..]);
  }

  /** `util.ParseBranchIDs`: the empty string is rejected; otherwise the
      comma-separated pieces are parsed as `ParsePieces` states. */
  method ParseBranchIDs(branchIds: string) returns (r: Result<seq<int>>)
    ensures branchIds == [] ==> r == Err(Failure("branch_ids cannot be empty"))
    ensures r.Ok? ==>
      |r.value| == |Split(branchIds)|
      && forall i :: 0 <= i < |r.value| ==> ParsePiece(Split(branchIds)[i]) == Some(r.value[i])
    ensures r.Err? && branchIds != [] ==> exists k :: StopsAt(Split(branchIds), k, r.error)
  {
    if branchIds == [] {
      return Err(Failure("branch_ids cannot be empty"));
    }
    r := ParsePieces(Split(branchIds));
  }
}
