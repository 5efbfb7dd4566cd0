/** Registering a franchise in a league and reading one back
    (service/franchise.go). */
module Franchises {
  import opened Base
  import opened Records
  import opened Store

  /** pb.FranchiseRequest as the franchise service reads it. */
  datatype FranchiseRequest = FranchiseRequest(
    leagueId: RawId,
    name: string,
    ownerId: RawId,
    ownerName: string,
    foundationYear: string)

  /** pb.FranchiseResponse. */
  datatype FranchiseResponse = FranchiseResponse(status: int, error: string, franchiseId: string)

  /** The franchises a league's `Franchises` association loads. */
  function Members(franchises: map<Uuid, Franchise>, league: Uuid): set<Uuid>
  {
    set f | f in franchises && franchises[f].leagueId == league
  }

  /** The name lookup `Where(&Franchise{LeagueID, Name}).First` finds a row:
      an empty name drops out of the condition and matches every franchise
      of the league. */
  predicate NameTaken(franchises: map<Uuid, Franchise>, league: Uuid, name: string)
  {
    exists f :: f in franchises && franchises[f].leagueId == league && FieldMatches(name, franchises[f].name)
  }

  function UnknownLeagueError(raw: RawId): string
  {
    "Franchise cannot be created, provided leagueId (" + raw.Text() + ") does not exist"
  }

  function NameTakenError(name: string): string
  {
    "Franchise cannot be created, franchise with name (" + name + ") already exisits in this league"
  }

  function CapacityError(max: int): string
  {
    "Franchise cannot be created, maximum number of franchises already created (" + DecimalString(max) + ")"
  }

  /** What the guard chain decides: the reply of a refused request (an
      answer or a panic), or the row an accepted one inserts. */
  datatype Admission = Refused(reply: Reply<FranchiseResponse>) | Admitted(franchise: Franchise)

  function Conflict(error: string): Reply<FranchiseResponse>
  {
    Answered(FranchiseResponse(StatusConflict, error, ""))
  }

  /** The checks of CreateFranchise in the order it makes them. */
  function Admit(leagues: map<Uuid, League>, franchises: map<Uuid, Franchise>, req: FranchiseRequest): Admission
  {
    if req.leagueId.Malformed? then Refused(Panicked(BadUuid(req.leagueId)))
    else if req.leagueId.id !in leagues then Refused(Conflict(UnknownLeagueError(req.leagueId)))
    else if NameTaken(franchises, req.leagueId.id, req.name) then Refused(Conflict(NameTakenError(req.name)))
    else if |Members(franchises, req.leagueId.id)| >= leagues[req.leagueId.id].maxFranchises then
      Refused(Conflict(CapacityError(leagues[req.leagueId.id].maxFranchises)))
    else if req.ownerId.Malformed? then Refused(Panicked(BadUuid(req.ownerId)))
    else Admitted(Franchise(req.name, req.ownerId.id, req.ownerName, req.foundationYear, req.leagueId.id))
  }

  /** The CreateFranchise RPC; `newId` is the key the insert hook draws. */
  method CreateFranchise(repo: Repository, req: FranchiseRequest, newId: Uuid) returns (reply: Reply<FranchiseResponse>)
    requires newId !in repo.franchises
    modifies repo
    ensures Admit(old(repo.leagues), old(repo.franchises), req).Refused? ==>
      reply == Admit(old(repo.leagues), old(repo.franchises), req).reply && repo.franchises == old(repo.franchises)
    ensures Admit(old(repo.leagues), old(repo.franchises), req).Admitted? ==>
      && reply == Answered(FranchiseResponse(StatusCreated, "", UuidText(newId)))
      && repo.franchises == old(repo.franchises)[newId := Admit(old(repo.leagues), old(repo.franchises), req).franchise]
    ensures repo.leagues == old(repo.leagues) && repo.picks == old(repo.picks) && repo.prospects == old(repo.prospects)
  {
    var leagueId := req.leagueId.Parse();
    if leagueId.None? {
      return Panicked(BadUuid(req.leagueId));
    }
    if leagueId.value !in repo.leagues {
      return Conflict(UnknownLeagueError(req.leagueId));
    }
    var league := repo.leagues[leagueId.value];
    if NameTaken(repo.franchises, leagueId.value, req.name) {
      return Conflict(NameTakenError(req.name));
    }
    if |Members(repo.franchises, leagueId.value)| >= league.maxFranchises {
      return Conflict(CapacityError(league.maxFranchises));
    }
    var owner := req.ownerId.Parse();
    if owner.None? {
      return Panicked(BadUuid(req.ownerId));
    }
    var franchise := Franchise(req.name, owner.value, req.ownerName, req.foundationYear, leagueId.value);
    repo.franchises := repo.franchises[newId := franchise];
    reply := Answered(FranchiseResponse(StatusCreated, "", UuidText(newId)));
  }

  /** A request is accepted exactly when both ids parse, the league exists,
      the name is free in it and the league is below its maximum; the row
      then holds the request's fields. */
  lemma AdmittedIff(leagues: map<Uuid, League>, franchises: map<Uuid, Franchise>, req: FranchiseRequest)
    ensures Admit(leagues, franchises, req).Admitted? <==>
      && !req.leagueId.Malformed? && !req.ownerId.Malformed?
      && req.leagueId.id in leagues
      && !NameTaken(franchises, req.leagueId.id, req.name)
      && |Members(franchises, req.leagueId.id)| < leagues[req.leagueId.id].maxFranchises
    ensures Admit(leagues, franchises, req).Admitted? ==>
      Admit(leagues, franchises, req).franchise ==
        Franchise(req.name, req.ownerId.id, req.ownerName, req.foundationYear, req.leagueId.id)
  {
  }

  /** A taken name is reported even when the league is also full: the name
      check runs first. */
  lemma NameCheckedBeforeCapacity(leagues: map<Uuid, League>, franchises: map<Uuid, Franchise>, req: FranchiseRequest)
    requires !req.leagueId.Malformed? && req.leagueId.id in leagues
    requires NameTaken(franchises, req.leagueId.id, req.name)
    ensures Admit(leagues, franchises, req) == Refused(Conflict(NameTakenError(req.name)))
  {
  }

  /** An id that parses but names no league is refused with the request's
      own spelling of it. */
  lemma UnknownLeagueRefused(leagues: map<Uuid, League>, franchises: map<Uuid, Franchise>, req: FranchiseRequest)
    requires !req.leagueId.Malformed? && req.leagueId.id !in leagues
    ensures Admit(leagues, franchises, req) == Refused(Conflict(UnknownLeagueError(req.leagueId)))
  {
  }

  /** Inserting a franchise of league `l` under a fresh key adds exactly that
      key to `l`'s members and leaves every other league's members alone. */
  lemma MembersAfterInsert(franchises: map<Uuid, Franchise>, newId: Uuid, f: Franchise, l: Uuid)
    requires newId !in franchises
    ensures f.leagueId == l ==> Members(franchises[newId := f], l) == Members(franchises, l) + {newId}
    ensures f.leagueId != l ==> Members(franchises[newId := f], l) == Members(franchises, l)
  {
    var after := franchises[newId := f];
    if f.leagueId == l {
      forall g | g in Members(after, l) ensures g in Members(franchises, l) + {newId} {
        if g != newId {
          assert g in franchises && franchises[g] == after[g];
        }
      }
    } else {
      forall g | g in Members(after, l) ensures g in Members(franchises, l) {
        assert g != newId;
      }
    }
  }

  /** An accepted request grows its league by exactly one franchise and never
      beyond the league's maximum. */
  lemma AdmissionGrowsLeagueByOne(leagues: map<Uuid, League>, franchises: map<Uuid, Franchise>,
                                  req: FranchiseRequest, newId: Uuid)
    requires newId !in franchises
    requires Admit(leagues, franchises, req).Admitted?
    ensures var after := franchises[newId := Admit(leagues, franchises, req).franchise];
      && |Members(after, req.leagueId.id)| == |Members(franchises, req.leagueId.id)| + 1
      && |Members(after, req.leagueId.id)| <= leagues[req.leagueId.id].maxFranchises
      && (forall l :: l != req.leagueId.id ==> Members(after, l) == Members(franchises, l))
  {
    var f := Admit(leagues, franchises, req).franchise;
    MembersAfterInsert(franchises, newId, f, req.leagueId.id);
    forall l | l != req.leagueId.id
      ensures Members(franchises[newId := f], l) == Members(franchises, l)
    {
      MembersAfterInsert(franchises, newId, f, l);
    }
  }

  /** The number of franchises a league admits: a negative maximum admits
      none. */
  function Quota(league: League): nat
  {
    if league.maxFranchises < 0 then 0 else league.maxFranchises
  }

  /** Every league holds at most as many franchises as it admits. */
  ghost predicate WithinCapacity(leagues: map<Uuid, League>, franchises: map<Uuid, Franchise>)
  {
    forall l :: l in leagues ==> |Members(franchises, l)| <= Quota(leagues[l])
  }

  lemma CreateKeepsCapacity(leagues: map<Uuid, League>, franchises: map<Uuid, Franchise>,
                            req: FranchiseRequest, newId: Uuid)
    requires newId !in franchises
    requires WithinCapacity(leagues, franchises)
    requires Admit(leagues, franchises, req).Admitted?
    ensures WithinCapacity(leagues, franchises[newId := Admit(leagues, franchises, req).franchise])
  {
    AdmissionGrowsLeagueByOne(leagues, franchises, req, newId);
  }

  /** No two franchises of one league share a name. */
  ghost predicate UniqueNames(franchises: map<Uuid, Franchise>)
  {
    forall a, b :: a in franchises && b in franchises && a != b && franchises[a].leagueId == franchises[b].leagueId
      ==> franchises[a].name != franchises[b].name
  }

  lemma CreateKeepsNamesUnique(leagues: map<Uuid, League>, franchises: map<Uuid, Franchise>,
                               req: FranchiseRequest, newId: Uuid)
    requires newId !in franchises
    requires UniqueNames(franchises)
    requires Admit(leagues, franchises, req).Admitted?
    ensures UniqueNames(franchises[newId := Admit(leagues, franchises, req).franchise])
  {
    var f := Admit(leagues, franchises, req).franchise;
    var after := franchises[newId := f];
    forall a, b | a in after && b in after && a != b && after[a].leagueId == after[b].leagueId
      ensures after[a].name != after[b].name
    {
      if a == newId {
        assert !(FieldMatches(req.name, franchises[b].name));
      } else if b == newId {
        assert !(FieldMatches(req.name, franchises[a].name));
      }
    }
  }

  /** pb.Prospect as the franchise listing fills it. */
  datatype ProspectItem = ProspectItem(id: string, fullName: string, firstName: string, lastName: string, franchiseId: string)

  const BlankProspect: ProspectItem := ProspectItem("", "", "", "", "")

  /** pb.Franchise. */
  datatype FranchiseDetail = FranchiseDetail(
    id: string,
    ownerId: string,
    ownerName: string,
    name: string,
    foundationYear: string,
    prospects: seq<ProspectItem>)

  /** pb.GetFranchiseResponse. */
  datatype GetFranchiseResponse = GetFranchiseResponse(status: int, error: string, result: Option<FranchiseDetail>)

  /** The prospects a franchise's `Prospects` association loads. */
  function Roster(prospects: map<Uuid, Prospect>, franchise: Uuid): set<Uuid>
  {
    set x | x in prospects && prospects[x].franchise == Some(franchise)
  }

  /** The prospect list GetFranchise answers with, as written: the loop over
      the loaded prospects only overwrites a local and never appends it, so
      a franchise with prospects lists none, and one without lists a single
      empty entry. */
  function WrittenProspects(roster: set<Uuid>): (items: seq<ProspectItem>)
    ensures |items| <= 1
  {
    if |roster| > 0 then [] else [BlankProspect]
  }

  function Item(prospects: map<Uuid, Prospect>, x: Uuid): ProspectItem
    requires x in prospects
  {
    var p := prospects[x];
    ProspectItem(UuidText(x), p.fullName, p.firstName, p.lastName,
                 if p.franchise.Some? then UuidText(p.franchise.value) else UuidText(NilUuid))
  }

  /** The evidently intended list: one entry per loaded prospect, in load
      order, and the single empty entry the other listings also use when
      there is none. */
  function ListedProspects(prospects: map<Uuid, Prospect>, order: seq<Uuid>): (items: seq<ProspectItem>)
    requires forall i :: 0 <= i < |order| ==> order[i] in prospects
  {
    if order == [] then [BlankProspect] else seq(|order|, i requires 0 <= i < |order| => Item(prospects, order[i]))
  }

  /** The intended list names every prospect of the franchise once, with its
      own fields. */
  lemma ListedProspectsComplete(prospects: map<Uuid, Prospect>, franchise: Uuid, order: seq<Uuid>)
    requires Enumerates(order, Roster(prospects, franchise))
    ensures forall i :: 0 <= i < |order| ==> order[i] in prospects
    ensures order != [] ==> |ListedProspects(prospects, order)| == |Roster(prospects, franchise)|
    ensures forall x :: x in Roster(prospects, franchise) ==> Item(prospects, x) in ListedProspects(prospects, order)
    ensures forall i :: 0 <= i < |ListedProspects(prospects, order)| && order != [] ==>
      ListedProspects(prospects, order)[i].franchiseId == UuidText(franchise)
  {
    EnumerationLength(order, Roster(prospects, franchise));
    var items := ListedProspects(prospects, order);
    forall x | x in Roster(prospects, franchise) ensures Item(prospects, x) in items {
      var i :| 0 <= i < |order| && order[i] == x;
      assert items[i] == Item(prospects, x);
    }
  }

  /** The as-written list loses every prospect: a franchise holding one
      answers with an empty list, although the intended list names it. */
  lemma WrittenProspectsDropRoster(prospects: map<Uuid, Prospect>, franchise: Uuid, order: seq<Uuid>)
    requires Enumerates(order, Roster(prospects, franchise))
    requires Roster(prospects, franchise) != {}
    ensures WrittenProspects(Roster(prospects, franchise)) == []
    ensures forall i :: 0 <= i < |order| ==> order[i] in prospects
    ensures |ListedProspects(prospects, order)| == |Roster(prospects, franchise)| > 0
  {
    ListedProspectsComplete(prospects, franchise, order);
  }

  /** The reply GetFranchise gives a franchise that holds a prospect: found,
      yet with an empty prospect list. */
  lemma GetFranchiseDropsRoster(franchises: map<Uuid, Franchise>, prospects: map<Uuid, Prospect>,
                                franchiseId: RawId, storeError: string, x: Uuid)
    requires !franchiseId.Malformed? && franchiseId.id in franchises
    requires x in prospects && prospects[x].franchise == Some(franchiseId.id)
    ensures var resp := GetFranchise(franchises, prospects, franchiseId, storeError);
      resp.status == StatusAccepted && resp.result.Some? && resp.result.value.prospects == []
  {
    assert x in Roster(prospects, franchiseId.id);
  }

  /** The GetFranchise RPC. The id string goes to the store unparsed; an id
      the store cannot read as a uuid fails the lookup with the store's own
      message `storeError`, an unknown one with gorm's "record not found". */
  function GetFranchise(franchises: map<Uuid, Franchise>, prospects: map<Uuid, Prospect>,
                        franchiseId: RawId, storeError: string): (resp: GetFranchiseResponse)
    ensures resp.status == StatusAccepted <==> !franchiseId.Malformed? && franchiseId.id in franchises
    ensures resp.status != StatusAccepted ==>
      && resp.status == StatusConflict && resp.result.None?
      && resp.error == "Getting franchiseId (" + franchiseId.Text() + ") failed: "
                       + (if franchiseId.Malformed? then storeError else "record not found")
    ensures resp.status == StatusAccepted ==>
      && resp.result.Some? && resp.error == ""
      && resp.result.value.id == UuidText(franchiseId.id)
      && resp.result.value.ownerId == UuidText(franchises[franchiseId.id].userId)
      && resp.result.value.ownerName == franchises[franchiseId.id].userName
      && resp.result.value.name == franchises[franchiseId.id].name
      && resp.result.value.foundationYear == franchises[franchiseId.id].foundationYear
      && resp.result.value.prospects == WrittenProspects(Roster(prospects, franchiseId.id))
  {
    var failed := "Getting franchiseId (" + franchiseId.Text() + ") failed: ";
    if franchiseId.Malformed? then
      GetFranchiseResponse(StatusConflict, failed + storeError, None)
    else if franchiseId.id !in franchises then
      GetFranchiseResponse(StatusConflict, failed + "record not found", None)
    else
      var f := franchises[franchiseId.id];
      GetFranchiseResponse(StatusAccepted, "", Some(FranchiseDetail(
        UuidText(franchiseId.id), UuidText(f.userId), f.userName, f.name, f.foundationYear,
        WrittenProspects(Roster(prospects, franchiseId.id)))))
  }
}
