/** Drafting a prospect with a pick and undoing it (service/draft.go).
    Each RPC runs one store transaction: the closure's checks either all
    pass and both rows are written, or the first failing one rolls the
    transaction back and the RPC answers 409 with that check's error text. */
module Draft {
  import opened Base
  import opened Records
  import opened Store

  /** pb.DraftRequest: four id strings. Undrafting reads only the first two. */
  datatype DraftRequest = DraftRequest(pickId: RawId, prospectId: RawId, franchiseId: RawId, leagueId: RawId)

  /** Why the transaction closure returned an error. */
  datatype Reason =
    | UnparsablePickId(raw: RawId)
    | UnparsableProspectId(raw: RawId)
    | UnparsableFranchiseId(raw: RawId)
    | UnparsableLeagueId(raw: RawId)
    | PickNotFound
    | ProspectNotFound
    | PickAlreadyAssigned(pick: Uuid, requested: Uuid)
    | ProspectAlreadyAssigned(prospect: Uuid, heldBy: Uuid)
    | PickHasNoProspect(pick: Uuid)
    | PickHasOtherProspect(pick: Uuid, requested: Uuid)
    | ProspectHasNoPick(prospect: Uuid)
    | ProspectHasOtherPick(prospect: Uuid, requested: Uuid)
  {
    /** The error's text as the response carries it. */
    function Text(): string {
      match this
      case UnparsablePickId(raw) => "could not parse PickID " + raw.Text()
      case UnparsableProspectId(raw) => "could not parse ProspectID" + raw.Text()
      case UnparsableFranchiseId(raw) => "could not parse FranchisetID" + raw.Text()
      case UnparsableLeagueId(raw) => "could not parse LeaguetID" + raw.Text()
      case PickNotFound => "record not found"
      case ProspectNotFound => "record not found"
      case PickAlreadyAssigned(p, x) =>
        "pick with ID " + UuidText(p) + " is already assigned to prospect " + UuidText(x)
      case ProspectAlreadyAssigned(x, p) =>
        "prospect with ID " + UuidText(x) + " is already assigned to pick " + UuidText(p)
      case PickHasNoProspect(p) =>
        "nothing to delete for pick with ID " + UuidText(p) + " no prospect assigned"
      case PickHasOtherProspect(p, x) =>
        "nothing to delete for pick with ID " + UuidText(p) + ". pick was never assigned to prospect " + UuidText(x)
      case ProspectHasNoPick(x) =>
        "nothing to delete for prospect with ID " + UuidText(x) + " no pick assigned"
      case ProspectHasOtherPick(x, p) =>
        "nothing to delete for prospect with ID " + UuidText(x) + ". prospect was not picked with pick " + UuidText(p)
    }
  }

  /** The outcome of one transaction: the two tables it commits, or the
      reason it rolled back. */
  datatype Tx = Commit(picks: map<Uuid, Pick>, prospects: map<Uuid, Prospect>) | Rollback(reason: Reason)

  function Respond(tx: Tx, success: string): DefaultResponse
  {
    if tx.Commit? then DefaultResponse(StatusOK, success, "")
    else DefaultResponse(StatusConflict, "", tx.reason.Text())
  }

  const DraftedMessage: string := "prospect was successfully drafted"
  const UndraftedMessage: string := "prospect was successfully undrafted"

  /** What the draft transaction does to the pick and prospect tables, check
      by check in the order the closure makes them. */
  function DraftTx(picks: map<Uuid, Pick>, prospects: map<Uuid, Prospect>, req: DraftRequest): Tx
  {
    if req.pickId.Malformed? then Rollback(UnparsablePickId(req.pickId))
    else if req.prospectId.Malformed? then Rollback(UnparsableProspectId(req.prospectId))
    else if req.franchiseId.Malformed? then Rollback(UnparsableFranchiseId(req.franchiseId))
    else if req.leagueId.Malformed? then Rollback(UnparsableLeagueId(req.leagueId))
    else
      var p, x := req.pickId.id, req.prospectId.id;
      if p !in picks then Rollback(PickNotFound)
      else if picks[p].prospect.Some? then Rollback(PickAlreadyAssigned(p, x))
      else if x !in prospects then Rollback(ProspectNotFound)
      else if prospects[x].pick.Some? then Rollback(ProspectAlreadyAssigned(x, prospects[x].pick.value))
      else Commit(picks[p := picks[p].(prospect := Some(x))],
                  prospects[x := prospects[x].(league := Some(req.leagueId.id),
                                               franchise := Some(req.franchiseId.id),
                                               pick := Some(p))])
  }

  /** What the undraft transaction does: the pick must hold exactly this
      prospect and the prospect exactly this pick; then both links and the
      prospect's league and franchise are cleared. */
  function UndraftTx(picks: map<Uuid, Pick>, prospects: map<Uuid, Prospect>, req: DraftRequest): Tx
  {
    if req.pickId.Malformed? then Rollback(UnparsablePickId(req.pickId))
    else if req.prospectId.Malformed? then Rollback(UnparsableProspectId(req.prospectId))
    else
      var p, x := req.pickId.id, req.prospectId.id;
      if p !in picks then Rollback(PickNotFound)
      else if picks[p].prospect.None? then Rollback(PickHasNoProspect(p))
      else if picks[p].prospect.value != x then Rollback(PickHasOtherProspect(p, x))
      else if x !in prospects then Rollback(ProspectNotFound)
      else if prospects[x].pick.None? then Rollback(ProspectHasNoPick(x))
      else if prospects[x].pick.value != p then Rollback(ProspectHasOtherPick(x, p))
      else Commit(picks[p := picks[p].(prospect := None)],
                  prospects[x := prospects[x].(league := None, franchise := None, pick := None)])
  }

  /** The DraftProspect RPC. The closure works on the transaction's view of
      the two tables; only a nil return makes its writes visible. */
  method DraftProspect(repo: Repository, req: DraftRequest) returns (resp: DefaultResponse)
    modifies repo
    ensures resp == Respond(DraftTx(old(repo.picks), old(repo.prospects), req), DraftedMessage)
    ensures DraftTx(old(repo.picks), old(repo.prospects), req).Commit? ==>
      repo.picks == DraftTx(old(repo.picks), old(repo.prospects), req).picks &&
      repo.prospects == DraftTx(old(repo.picks), old(repo.prospects), req).prospects
    ensures DraftTx(old(repo.picks), old(repo.prospects), req).Rollback? ==>
      repo.picks == old(repo.picks) && repo.prospects == old(repo.prospects)
    ensures repo.leagues == old(repo.leagues) && repo.franchises == old(repo.franchises)
  {
    var failure: Option<Reason> := None;
    var txPicks, txProspects := repo.picks, repo.prospects;
    var pickId := req.pickId.Parse();
    var prospectId := req.prospectId.Parse();
    var franchiseId := req.franchiseId.Parse();
    var leagueId := req.leagueId.Parse();
    if pickId.None? {
      failure := Some(UnparsablePickId(req.pickId));
    } else if prospectId.None? {
      failure := Some(UnparsableProspectId(req.prospectId));
    } else if franchiseId.None? {
      failure := Some(UnparsableFranchiseId(req.franchiseId));
    } else if leagueId.None? {
      failure := Some(UnparsableLeagueId(req.leagueId));
    } else if pickId.value !in txPicks {
      failure := Some(PickNotFound);
    } else {
      var pick := txPicks[pickId.value];
      if pick.prospect.Some? {
        failure := Some(PickAlreadyAssigned(pickId.value, prospectId.value));
      } else if prospectId.value !in txProspects {
        failure := Some(ProspectNotFound);
      } else {
        var prospect := txProspects[prospectId.value];
        if prospect.pick.Some? {
          failure := Some(ProspectAlreadyAssigned(prospectId.value, prospect.pick.value));
        } else {
          prospect := prospect.(league := Some(leagueId.value), franchise := Some(franchiseId.value));
          txProspects := txProspects[prospectId.value := prospect];
          // setting the pick's prospect_id is what makes the prospect's
          // has-one association load this pick
          txPicks := txPicks[pickId.value := pick.(prospect := prospectId)];
          txProspects := txProspects[prospectId.value := prospect.(pick := pickId)];
        }
      }
    }
    if failure.None? {
      repo.picks, repo.prospects := txPicks, txProspects;
      resp := DefaultResponse(StatusOK, DraftedMessage, "");
    } else {
      resp := DefaultResponse(StatusConflict, "", failure.value.Text());
    }
  }

  /** The UndraftProspect RPC; franchise and league ids are not read. */
  method UndraftProspect(repo: Repository, req: DraftRequest) returns (resp: DefaultResponse)
    modifies repo
    ensures resp == Respond(UndraftTx(old(repo.picks), old(repo.prospects), req), UndraftedMessage)
    ensures UndraftTx(old(repo.picks), old(repo.prospects), req).Commit? ==>
      repo.picks == UndraftTx(old(repo.picks), old(repo.prospects), req).picks &&
      repo.prospects == UndraftTx(old(repo.picks), old(repo.prospects), req).prospects
    ensures UndraftTx(old(repo.picks), old(repo.prospects), req).Rollback? ==>
      repo.picks == old(repo.picks) && repo.prospects == old(repo.prospects)
    ensures repo.leagues == old(repo.leagues) && repo.franchises == old(repo.franchises)
  {
    var failure: Option<Reason> := None;
    var txPicks, txProspects := repo.picks, repo.prospects;
    var pickId := req.pickId.Parse();
    var prospectId := req.prospectId.Parse();
    if pickId.None? {
      failure := Some(UnparsablePickId(req.pickId));
    } else if prospectId.None? {
      failure := Some(UnparsableProspectId(req.prospectId));
    } else if pickId.value !in txPicks {
      failure := Some(PickNotFound);
    } else {
      var pick := txPicks[pickId.value];
      if pick.prospect.None? {
        failure := Some(PickHasNoProspect(pickId.value));
      } else if pick.prospect.value != prospectId.value {
        failure := Some(PickHasOtherProspect(pickId.value, prospectId.value));
      } else if prospectId.value !in txProspects {
        failure := Some(ProspectNotFound);
      } else {
        var prospect := txProspects[prospectId.value];
        if prospect.pick.None? {
          failure := Some(ProspectHasNoPick(prospectId.value));
        } else if prospect.pick.value != pickId.value {
          failure := Some(ProspectHasOtherPick(prospectId.value, pickId.value));
        } else {
          txProspects := txProspects[prospectId.value := prospect.(league := None, franchise := None, pick := None)];
          txPicks := txPicks[pickId.value := pick.(prospect := None)];
        }
      }
    }
    if failure.None? {
      repo.picks, repo.prospects := txPicks, txProspects;
      resp := DefaultResponse(StatusOK, UndraftedMessage, "");
    } else {
      resp := DefaultResponse(StatusConflict, "", failure.value.Text());
    }
  }

  /** Drafting commits exactly when all four ids parse, the pick exists and
      is free, and the prospect exists and is free. Neither the franchise nor
      the league is looked up, and the pick's owner is never compared with
      the drafting franchise. */
  lemma DraftCommitsIff(picks: map<Uuid, Pick>, prospects: map<Uuid, Prospect>, req: DraftRequest)
    ensures DraftTx(picks, prospects, req).Commit? <==>
      && !req.pickId.Malformed? && !req.prospectId.Malformed?
      && !req.franchiseId.Malformed? && !req.leagueId.Malformed?
      && req.pickId.id in picks && picks[req.pickId.id].prospect.None?
      && req.prospectId.id in prospects && prospects[req.prospectId.id].pick.None?
  {
  }

  /** A committed draft writes the pick's prospect, the prospect's league,
      franchise and pick, and leaves every other row and field as it was. */
  lemma DraftCommitEffect(picks: map<Uuid, Pick>, prospects: map<Uuid, Prospect>, req: DraftRequest)
    requires DraftTx(picks, prospects, req).Commit?
    ensures var tx := DraftTx(picks, prospects, req);
      var p, x := req.pickId.id, req.prospectId.id;
      && tx.picks.Keys == picks.Keys && tx.prospects.Keys == prospects.Keys
      && tx.picks[p] == picks[p].(prospect := Some(x))
      && tx.prospects[x] == prospects[x].(league := Some(req.leagueId.id), franchise := Some(req.franchiseId.id), pick := Some(p))
      && (forall q :: q in picks && q != p ==> tx.picks[q] == picks[q])
      && (forall y :: y in prospects && y != x ==> tx.prospects[y] == prospects[y])
  {
  }

  /** A pick that already holds a prospect is refused whatever prospect is
      asked for and whatever the prospect table holds. */
  lemma DraftRefusesAssignedPick(picks: map<Uuid, Pick>, prospects: map<Uuid, Prospect>, req: DraftRequest)
    requires !req.pickId.Malformed? && !req.prospectId.Malformed?
    requires !req.franchiseId.Malformed? && !req.leagueId.Malformed?
    requires req.pickId.id in picks && picks[req.pickId.id].prospect.Some?
    ensures DraftTx(picks, prospects, req) == Rollback(PickAlreadyAssigned(req.pickId.id, req.prospectId.id))
  {
  }

  /** A prospect that already has a pick is refused, and the error names
      the pick that holds it. */
  lemma DraftRefusesDraftedProspect(picks: map<Uuid, Pick>, prospects: map<Uuid, Prospect>, req: DraftRequest)
    requires !req.pickId.Malformed? && !req.prospectId.Malformed?
    requires !req.franchiseId.Malformed? && !req.leagueId.Malformed?
    requires req.pickId.id in picks && picks[req.pickId.id].prospect.None?
    requires req.prospectId.id in prospects && prospects[req.prospectId.id].pick.Some?
    ensures DraftTx(picks, prospects, req) ==
      Rollback(ProspectAlreadyAssigned(req.prospectId.id, prospects[req.prospectId.id].pick.value))
  {
  }

  /** Undrafting commits exactly when both ids parse and the pick and the
      prospect exist and name each other. */
  lemma UndraftCommitsIff(picks: map<Uuid, Pick>, prospects: map<Uuid, Prospect>, req: DraftRequest)
    ensures UndraftTx(picks, prospects, req).Commit? <==>
      && !req.pickId.Malformed? && !req.prospectId.Malformed?
      && req.pickId.id in picks && picks[req.pickId.id].prospect == Some(req.prospectId.id)
      && req.prospectId.id in prospects && prospects[req.prospectId.id].pick == Some(req.pickId.id)
  {
  }

  /** In a consistent store the association field of a prospect is the one
      pick whose prospect column names it, as the store's preload derives it. */
  lemma AssociationIsDerived(picks: map<Uuid, Pick>, prospects: map<Uuid, Prospect>, x: Uuid, p: Uuid)
    requires Linked(picks, prospects)
    requires x in prospects
    ensures prospects[x].pick == Some(p) <==> p in picks && picks[p].prospect == Some(x)
  {
  }

  /** Drafting keeps the store consistent. */
  lemma DraftKeepsConsistency(picks: map<Uuid, Pick>, prospects: map<Uuid, Prospect>, req: DraftRequest)
    requires Consistent(picks, prospects)
    requires DraftTx(picks, prospects, req).Commit?
    ensures Consistent(DraftTx(picks, prospects, req).picks, DraftTx(picks, prospects, req).prospects)
  {
    var tx := DraftTx(picks, prospects, req);
    var p, x := req.pickId.id, req.prospectId.id;
    forall q | q in tx.picks && tx.picks[q].prospect.Some?
      ensures tx.picks[q].prospect.value in tx.prospects
      ensures tx.prospects[tx.picks[q].prospect.value].pick == Some(q)
    {
      if q != p {
        // q's prospect was linked back to q, so it cannot be x, which was free
        assert picks[q].prospect.value != x;
      }
    }
    forall y | y in tx.prospects && tx.prospects[y].pick.Some?
      ensures tx.prospects[y].pick.value in tx.picks
      ensures tx.picks[tx.prospects[y].pick.value].prospect == Some(y)
    {
      if y != x {
        assert prospects[y].pick.value != p;
      }
    }
  }

  /** Undrafting keeps the store consistent. */
  lemma UndraftKeepsConsistency(picks: map<Uuid, Pick>, prospects: map<Uuid, Prospect>, req: DraftRequest)
    requires Consistent(picks, prospects)
    requires UndraftTx(picks, prospects, req).Commit?
    ensures Consistent(UndraftTx(picks, prospects, req).picks, UndraftTx(picks, prospects, req).prospects)
  {
    var tx := UndraftTx(picks, prospects, req);
    var p, x := req.pickId.id, req.prospectId.id;
    forall q | q in tx.picks && tx.picks[q].prospect.Some?
      ensures tx.picks[q].prospect.value in tx.prospects
      ensures tx.prospects[tx.picks[q].prospect.value].pick == Some(q)
    {
      assert q != p;
      if picks[q].prospect.value == x {
        LinkedPickIsUnique(picks, prospects, p, q);
      }
    }
  }

  /** A successful draft followed by an undraft of the same pick and
      prospect puts both tables back exactly as they were. */
  lemma DraftThenUndraft(picks: map<Uuid, Pick>, prospects: map<Uuid, Prospect>, req: DraftRequest)
    requires Consistent(picks, prospects)
    requires DraftTx(picks, prospects, req).Commit?
    ensures var d := DraftTx(picks, prospects, req);
      UndraftTx(d.picks, d.prospects, req) == Commit(picks, prospects)
  {
    var d := DraftTx(picks, prospects, req);
    var p, x := req.pickId.id, req.prospectId.id;
    var u := UndraftTx(d.picks, d.prospects, req);
    assert u.Commit?;
    assert RosterFollowsPick(prospects[x]);
    assert u.picks[p] == picks[p];
    assert u.prospects[x] == prospects[x];
    assert u.picks == picks;
    assert u.prospects == prospects;
  }

  /** Undrafting and then drafting the same prospect with the same pick,
      franchise and league restores the store. */
  lemma UndraftThenDraft(picks: map<Uuid, Pick>, prospects: map<Uuid, Prospect>, req: DraftRequest)
    requires Consistent(picks, prospects)
    requires UndraftTx(picks, prospects, req).Commit?
    requires req.franchiseId.Parse() == prospects[req.prospectId.id].franchise
    requires req.leagueId.Parse() == prospects[req.prospectId.id].league
    ensures var u := UndraftTx(picks, prospects, req);
      DraftTx(u.picks, u.prospects, req) == Commit(picks, prospects)
  {
    var u := UndraftTx(picks, prospects, req);
    var p, x := req.pickId.id, req.prospectId.id;
    assert RosterFollowsPick(prospects[x]);
    var d := DraftTx(u.picks, u.prospects, req);
    assert d.Commit?;
    assert d.picks[p] == picks[p];
    assert d.prospects[x] == prospects[x];
    assert d.picks == picks;
    assert d.prospects == prospects;
  }

  /** Sending the same draft twice: the second is refused because the pick
      is now taken, and the store is left as the first one wrote it. */
  lemma DraftTwiceConflicts(picks: map<Uuid, Pick>, prospects: map<Uuid, Prospect>, req: DraftRequest)
    requires DraftTx(picks, prospects, req).Commit?
    ensures var d := DraftTx(picks, prospects, req);
      DraftTx(d.picks, d.prospects, req) == Rollback(PickAlreadyAssigned(req.pickId.id, req.prospectId.id))
  {
  }
}
