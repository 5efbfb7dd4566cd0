/** Creating, updating and reading the league (service/league.go). Only one
    league name, "Lakelandcup", is accepted by creation and by update. */
module Leagues {
  import opened Base
  import opened Records
  import opened Store

  /** pb.LeagueRequest: the league's columns, with the two user ids as
      strings. */
  datatype LeagueRequest = LeagueRequest(
    name: string,
    admin: string,
    adminId: RawId,
    commissioner: string,
    commissionerId: RawId,
    foundationYear: string,
    maxFranchises: int,
    maxProspects: int,
    draftRightsGoalie: int,
    draftRightsSkater: int,
    draftRounds: int)

  /** pb.LeagueUpdateRequest: the league to overwrite and its new columns. */
  datatype LeagueUpdateRequest = LeagueUpdateRequest(id: RawId, league: LeagueRequest)

  /** pb.LeagueResponse. */
  datatype LeagueResponse = LeagueResponse(status: int, error: string, leagueId: string)

  const WrongNameError: string := "Wrong league name. Only league " + Quoted(LeagueName) + " can be created."
  const ExistsError: string := "League already exists"
  const NotUpdatableError: string := "League does't exists or is not called " + Quoted(LeagueName)

  function Conflict(error: string): Reply<LeagueResponse>
  {
    Answered(LeagueResponse(StatusConflict, error, ""))
  }

  /** Some stored league is named `name` (the lookup by a struct condition
      on the name; the name is never empty here, since only "Lakelandcup"
      gets this far). */
  predicate NameInUse(leagues: map<Uuid, League>, name: string)
  {
    exists l :: l in leagues && FieldMatches(name, leagues[l].name)
  }

  /** The row a request describes, once both user ids have parsed. */
  function RowOf(req: LeagueRequest): League
    requires !req.adminId.Malformed? && !req.commissionerId.Malformed?
  {
    League(req.name, req.admin, req.adminId.id, req.commissioner, req.commissionerId.id, req.foundationYear,
           req.maxFranchises, req.maxProspects, req.draftRightsGoalie, req.draftRightsSkater, req.draftRounds)
  }

  /** What a request to write a league decides: the reply of a refused
      request, a row to insert under the key the insert hook draws, or a
      row to write over a stored key. */
  datatype Decision = Refused(reply: Reply<LeagueResponse>) | Insert(league: League) | Overwrite(key: Uuid, league: League)

  /** The league table after a decision; `newId` is the key the insert hook
      draws. */
  function Apply(leagues: map<Uuid, League>, d: Decision, newId: Uuid): map<Uuid, League>
  {
    match d
    case Refused(_) => leagues
    case Insert(row) => leagues[newId := row]
    case Overwrite(key, row) => leagues[key := row]
  }

  /** The reply to a decision: a refusal as decided, otherwise 201 with the
      key of the row written. */
  function ReplyTo(d: Decision, newId: Uuid): Reply<LeagueResponse>
  {
    match d
    case Refused(reply) => reply
    case Insert(_) => Answered(LeagueResponse(StatusCreated, "", UuidText(newId)))
    case Overwrite(key, _) => Answered(LeagueResponse(StatusCreated, "", UuidText(key)))
  }

  /** The checks of CreateLeague in the order it makes them. */
  function DecideCreate(leagues: map<Uuid, League>, req: LeagueRequest): Decision
  {
    if req.name != LeagueName then Refused(Conflict(WrongNameError))
    else if NameInUse(leagues, req.name) then Refused(Conflict(ExistsError))
    else if req.adminId.Malformed? then Refused(Panicked(BadUuid(req.adminId)))
    else if req.commissionerId.Malformed? then Refused(Panicked(BadUuid(req.commissionerId)))
    else Insert(RowOf(req))
  }

  /** The CreateLeague RPC; `newId` is the key the insert hook draws. */
  method CreateLeague(repo: Repository, req: LeagueRequest, newId: Uuid) returns (reply: Reply<LeagueResponse>)
    requires newId !in repo.leagues
    modifies repo
    ensures reply == ReplyTo(DecideCreate(old(repo.leagues), req), newId)
    ensures repo.leagues == Apply(old(repo.leagues), DecideCreate(old(repo.leagues), req), newId)
    ensures repo.franchises == old(repo.franchises) && repo.picks == old(repo.picks) && repo.prospects == old(repo.prospects)
  {
    if req.name != LeagueName {
      return Conflict(WrongNameError);
    }
    if NameInUse(repo.leagues, req.name) {
      return Conflict(ExistsError);
    }
    var adminId := req.adminId.Parse();
    if adminId.None? {
      return Panicked(BadUuid(req.adminId));
    }
    var commissionerId := req.commissionerId.Parse();
    if commissionerId.None? {
      return Panicked(BadUuid(req.commissionerId));
    }
    var league := League(req.name, req.admin, adminId.value, req.commissioner, commissionerId.value,
                         req.foundationYear, req.maxFranchises, req.maxProspects,
                         req.draftRightsGoalie, req.draftRightsSkater, req.draftRounds);
    repo.leagues := repo.leagues[newId := league];
    reply := Answered(LeagueResponse(StatusCreated, "", UuidText(newId)));
  }

  /** The update lookup by a struct condition on the id and the name
      "Lakelandcup" finds a row. gorm leaves the nil id out of the
      condition, so the nil id finds any league still called
      "Lakelandcup". */
  predicate UpdateTargetFound(leagues: map<Uuid, League>, id: Uuid)
  {
    if id == NilUuid then exists l :: l in leagues && leagues[l].name == LeagueName
    else id in leagues && leagues[id].name == LeagueName
  }

  /** The checks of UpdateLeague in the order it makes them. The row found
      gets the request's id and every column of the request, and `Save`
      writes it back; with the nil id the key is zero, so `Save` inserts it
      as a new row and the insert hook draws its key. */
  function DecideUpdate(leagues: map<Uuid, League>, req: LeagueUpdateRequest): Decision
  {
    if req.id.Malformed? then Refused(Panicked(BadUuid(req.id)))
    else if !UpdateTargetFound(leagues, req.id.id) then Refused(Conflict(NotUpdatableError))
    else if req.league.adminId.Malformed? then Refused(Panicked(BadUuid(req.league.adminId)))
    else if req.league.commissionerId.Malformed? then Refused(Panicked(BadUuid(req.league.commissionerId)))
    else if req.id.id == NilUuid then Insert(RowOf(req.league))
    else Overwrite(req.id.id, RowOf(req.league))
  }

  /** The UpdateLeague RPC: every column of the row is overwritten from the
      request, the name included; the key stays, unless it is the nil id.
      `newId` is the key the insert hook draws in that case. */
  method UpdateLeague(repo: Repository, req: LeagueUpdateRequest, newId: Uuid) returns (reply: Reply<LeagueResponse>)
    requires newId !in repo.leagues
    modifies repo
    ensures reply == ReplyTo(DecideUpdate(old(repo.leagues), req), newId)
    ensures repo.leagues == Apply(old(repo.leagues), DecideUpdate(old(repo.leagues), req), newId)
    ensures repo.franchises == old(repo.franchises) && repo.picks == old(repo.picks) && repo.prospects == old(repo.prospects)
  {
    var id := req.id.Parse();
    if id.None? {
      return Panicked(BadUuid(req.id));
    }
    var found := if id.value == NilUuid then exists l :: l in repo.leagues && repo.leagues[l].name == LeagueName
                 else id.value in repo.leagues && repo.leagues[id.value].name == LeagueName;
    if !found {
      return Conflict(NotUpdatableError);
    }
    var adminId := req.league.adminId.Parse();
    if adminId.None? {
      return Panicked(BadUuid(req.league.adminId));
    }
    var commissionerId := req.league.commissionerId.Parse();
    if commissionerId.None? {
      return Panicked(BadUuid(req.league.commissionerId));
    }
    var league := League(req.league.name, req.league.admin, adminId.value,
                         req.league.commissioner, commissionerId.value,
                         req.league.foundationYear, req.league.maxFranchises, req.league.maxProspects,
                         req.league.draftRightsGoalie, req.league.draftRightsSkater, req.league.draftRounds);
    var key := if id.value == NilUuid then newId else id.value;
    repo.leagues := repo.leagues[key := league];
    reply := Answered(LeagueResponse(StatusCreated, "", UuidText(key)));
  }

  /** No two stored leagues are both called "Lakelandcup". */
  ghost predicate SingleLakelandcup(leagues: map<Uuid, League>)
  {
    forall a, b :: a in leagues && b in leagues && leagues[a].name == LeagueName && leagues[b].name == LeagueName ==> a == b
  }

  /** Creation succeeds only for the name "Lakelandcup" and only while no
      league of that name is stored. */
  lemma CreateStoresIff(leagues: map<Uuid, League>, req: LeagueRequest)
    ensures DecideCreate(leagues, req).Insert? <==>
      && req.name == LeagueName
      && (forall l :: l in leagues ==> leagues[l].name != LeagueName)
      && !req.adminId.Malformed? && !req.commissionerId.Malformed?
    ensures DecideCreate(leagues, req).Insert? ==> DecideCreate(leagues, req).league.name == LeagueName
  {
    if req.name == LeagueName && NameInUse(leagues, req.name) {
      var l :| l in leagues && FieldMatches(req.name, leagues[l].name);
      assert leagues[l].name == LeagueName;
    }
  }

  /** A creation keeps at most one league called "Lakelandcup", and the
      table grows by one row. */
  lemma CreateKeepsSingleLakelandcup(leagues: map<Uuid, League>, req: LeagueRequest, newId: Uuid)
    requires newId !in leagues
    requires SingleLakelandcup(leagues)
    requires DecideCreate(leagues, req).Insert?
    ensures SingleLakelandcup(Apply(leagues, DecideCreate(leagues, req), newId))
    ensures |Apply(leagues, DecideCreate(leagues, req), newId)| == |leagues| + 1
  {
    CreateStoresIff(leagues, req);
  }

  /** Creation looks only at names: once the one league has been renamed by
      an update, a creation stores a second league beside it. */
  lemma CreateAfterRenameAddsLeague(leagues: map<Uuid, League>, rename: LeagueUpdateRequest,
                                    req: LeagueRequest, newId: Uuid)
    requires SingleLakelandcup(leagues)
    requires DecideUpdate(leagues, rename).Overwrite? && rename.league.name != LeagueName
    requires req.name == LeagueName && !req.adminId.Malformed? && !req.commissionerId.Malformed?
    requires newId !in leagues
    ensures var renamed := Apply(leagues, DecideUpdate(leagues, rename), newId);
      && renamed.Keys == leagues.Keys
      && DecideCreate(renamed, req).Insert?
      && |Apply(renamed, DecideCreate(renamed, req), newId)| == |leagues| + 1
  {
    var renamed := Apply(leagues, DecideUpdate(leagues, rename), newId);
    var target := rename.id.id;
    forall l | l in renamed
      ensures renamed[l].name != LeagueName
    {
      if l != target {
        assert leagues[target].name == LeagueName;
      }
    }
    CreateStoresIff(renamed, req);
  }

  /** The same creation a second time is refused with "League already
      exists". */
  lemma CreateTwiceConflicts(leagues: map<Uuid, League>, req: LeagueRequest, newId: Uuid)
    requires DecideCreate(leagues, req).Insert?
    ensures DecideCreate(Apply(leagues, DecideCreate(leagues, req), newId), req) == Refused(Conflict(ExistsError))
  {
    var after := Apply(leagues, DecideCreate(leagues, req), newId);
    assert after[newId].name == req.name;
    assert NameInUse(after, req.name);
  }

  /** An update by a real id keeps the set of keys and can only rename the
      one "Lakelandcup" league, so at most one league keeps that name; an
      update by the nil id inserts a row under a fresh key. */
  lemma UpdateKeepsSingleLakelandcup(leagues: map<Uuid, League>, req: LeagueUpdateRequest, newId: Uuid)
    requires SingleLakelandcup(leagues)
    requires !DecideUpdate(leagues, req).Refused?
    ensures var after := Apply(leagues, DecideUpdate(leagues, req), newId);
      req.id.id != NilUuid ==> after.Keys == leagues.Keys && SingleLakelandcup(after)
    ensures var after := Apply(leagues, DecideUpdate(leagues, req), newId);
      req.id.id == NilUuid ==> after.Keys == leagues.Keys + {newId} && after[newId] == RowOf(req.league)
  {
    var after := Apply(leagues, DecideUpdate(leagues, req), newId);
    if req.id.id != NilUuid {
      forall a, b | a in after && b in after && after[a].name == LeagueName && after[b].name == LeagueName
        ensures a == b
      {
        // the row being updated is the one "Lakelandcup" league, so no
        // other row can carry that name
        if a != req.id.id || b != req.id.id {
          assert leagues[req.id.id].name == LeagueName;
        }
      }
    }
  }

  /** The nil id adds a league: while a "Lakelandcup" league is stored, an
      update by the nil id that keeps the name stores a second
      "Lakelandcup" league. */
  lemma NilIdUpdateAddsLakelandcup(leagues: map<Uuid, League>, req: LeagueUpdateRequest, newId: Uuid, l: Uuid)
    requires l in leagues && leagues[l].name == LeagueName
    requires req.id.Parse() == Some(NilUuid)
    requires req.league.name == LeagueName && !req.league.adminId.Malformed? && !req.league.commissionerId.Malformed?
    requires newId !in leagues
    ensures var after := Apply(leagues, DecideUpdate(leagues, req), newId);
      && ReplyTo(DecideUpdate(leagues, req), newId) == Answered(LeagueResponse(StatusCreated, "", UuidText(newId)))
      && |after| == |leagues| + 1
      && !SingleLakelandcup(after)
  {
    var after := Apply(leagues, DecideUpdate(leagues, req), newId);
    assert UpdateTargetFound(leagues, NilUuid);
    assert after[l].name == LeagueName && after[newId].name == LeagueName;
  }

  /** After an update renames the league, the next update of it is refused. */
  lemma RenamedLeagueIsFrozen(leagues: map<Uuid, League>, req: LeagueUpdateRequest, next: LeagueUpdateRequest, newId: Uuid)
    requires DecideUpdate(leagues, req).Overwrite?
    requires req.league.name != LeagueName
    requires next.id.Parse() == req.id.Parse()
    ensures DecideUpdate(Apply(leagues, DecideUpdate(leagues, req), newId), next) == Refused(Conflict(NotUpdatableError))
  {
  }

  /** pb.Franchise as the league listing fills it. */
  datatype FranchiseItem = FranchiseItem(id: string, ownerId: string, ownerName: string, name: string, foundationYear: string)

  const BlankFranchise: FranchiseItem := FranchiseItem("", "", "", "", "")

  /** pb.League. */
  datatype LeagueDetail = LeagueDetail(
    id: string,
    name: string,
    admin: string,
    adminId: string,
    commissioner: string,
    commissionerId: string,
    foundationYear: string,
    maxFranchises: int,
    maxProspects: int,
    draftRightsGoalie: int,
    draftRightsSkater: int,
    franchises: seq<FranchiseItem>)

  /** pb.GetLeagueResponse. */
  datatype GetLeagueResponse = GetLeagueResponse(status: int, error: string, result: Option<LeagueDetail>)

  function Members(franchises: map<Uuid, Franchise>, league: Uuid): set<Uuid>
  {
    set f | f in franchises && franchises[f].leagueId == league
  }

  function ItemOf(franchises: map<Uuid, Franchise>, f: Uuid): FranchiseItem
    requires f in franchises
  {
    var r := franchises[f];
    FranchiseItem(UuidText(f), UuidText(r.userId), r.userName, r.name, r.foundationYear)
  }

  /** The evidently intended franchise list: one entry per franchise of the
      league in load order, or one empty entry when there is none. */
  function Listed(franchises: map<Uuid, Franchise>, order: seq<Uuid>): (items: seq<FranchiseItem>)
    requires forall i :: 0 <= i < |order| ==> order[i] in franchises
  {
    if order == [] then [BlankFranchise] else seq(|order|, i requires 0 <= i < |order| => ItemOf(franchises, order[i]))
  }

  /** The list GetLeague builds, as written: every entry is a pointer to the
      one loop temporary, so once the loop is done each entry shows the last
      franchise loaded. */
  function Aliased(franchises: map<Uuid, Franchise>, order: seq<Uuid>): (items: seq<FranchiseItem>)
    requires forall i :: 0 <= i < |order| ==> order[i] in franchises
    ensures |items| == if order == [] then 1 else |order|
  {
    if order == [] then [BlankFranchise]
    else seq(|order|, _ => ItemOf(franchises, order[|order| - 1]))
  }

  function DetailOf(id: Uuid, l: League, items: seq<FranchiseItem>): LeagueDetail
  {
    LeagueDetail(UuidText(id), l.name, l.admin, UuidText(l.adminId), l.commissioner, UuidText(l.commissionerId),
                 l.foundationYear, l.maxFranchises, l.maxProspects, l.draftRightsGoalie, l.draftRightsSkater, items)
  }

  /** What the loop over the league's franchises has done once the members
      outside `rest` are loaded: `order` lists them in load order, the list
      holds one reference per member loaded, and the temporary holds the
      last one. */
  ghost predicate Loaded(franchises: map<Uuid, Franchise>, members: set<Uuid>, rest: set<Uuid>,
                         order: seq<Uuid>, pointers: int, tmp: FranchiseItem)
  {
    && members <= franchises.Keys
    && rest <= members
    && Enumerates(order, members - rest)
    && pointers == |order|
    && (order != [] ==> tmp == ItemOf(franchises, order[|order| - 1]))
  }

  lemma LoadedStep(franchises: map<Uuid, Franchise>, members: set<Uuid>, rest: set<Uuid>,
                   order: seq<Uuid>, pointers: int, tmp: FranchiseItem, f: Uuid)
    requires Loaded(franchises, members, rest, order, pointers, tmp) && f in rest
    ensures Loaded(franchises, members, rest - {f}, order + [f], pointers + 1, ItemOf(franchises, f))
  {
    EnumerationStep(order, members - rest, f);
    assert members - (rest - {f}) == (members - rest) + {f};
  }

  /** The loop over the league's franchises, as written. Each iteration
      overwrites the one temporary and appends its address, so the list
      holds `pointers` references to it, all read once the loop is done. */
  method AliasedItems(franchises: map<Uuid, Franchise>, members: set<Uuid>)
    returns (items: seq<FranchiseItem>, ghost order: seq<Uuid>)
    requires members <= franchises.Keys
    ensures Enumerates(order, members)
    ensures order == [] ==> items == []
    ensures order != [] ==> items == Aliased(franchises, order)
  {
    order := [];
    var tmp := BlankFranchise;
    var pointers := 0;
    var rest := members;
    while rest != {}
      invariant Loaded(franchises, members, rest, order, pointers, tmp)
      decreases |rest|
    {
      var f :| f in rest;
      LoadedStep(franchises, members, rest, order, pointers, tmp, f);
      tmp := ItemOf(franchises, f);
      pointers := pointers + 1;
      order := order + [f];
      rest := rest - {f};
    }
    assert members - rest == members;
    items := seq(pointers, _ => tmp);
    if order != [] {
      AliasedIsLast(franchises, order, tmp);
    }
  }

  /** The list as written is the last franchise's item, once per franchise. */
  lemma AliasedIsLast(franchises: map<Uuid, Franchise>, order: seq<Uuid>, last: FranchiseItem)
    requires forall i :: 0 <= i < |order| ==> order[i] in franchises
    requires order != [] && last == ItemOf(franchises, order[|order| - 1])
    ensures Aliased(franchises, order) == seq(|order|, _ => last)
  {
  }

  /** The GetLeague RPC. The id string goes to the store unparsed; both an
      id the store rejects and an unknown one give the same error. */
  method GetLeague(repo: Repository, leagueId: RawId) returns (resp: GetLeagueResponse, ghost order: seq<Uuid>)
    ensures resp.status == StatusAccepted <==> !leagueId.Malformed? && leagueId.id in repo.leagues
    ensures resp.status != StatusAccepted ==>
      resp == GetLeagueResponse(StatusConflict, "Getting LeagueID (" + leagueId.Text() + ") failed", None)
    ensures resp.status == StatusAccepted ==>
      && Enumerates(order, Members(repo.franchises, leagueId.id))
      && resp.error == ""
      && resp.result == Some(DetailOf(leagueId.id, repo.leagues[leagueId.id], Aliased(repo.franchises, order)))
  {
    order := [];
    if leagueId.Malformed? || leagueId.id !in repo.leagues {
      return GetLeagueResponse(StatusConflict, "Getting LeagueID (" + leagueId.Text() + ") failed", None), order;
    }
    var id := leagueId.id;
    var items;
    items, order := AliasedItems(repo.franchises, Members(repo.franchises, id));
    if items == [] {
      items := [BlankFranchise];
    }
    resp := GetLeagueResponse(StatusAccepted, "", Some(DetailOf(id, repo.leagues[id], items)));
  }

  /** As written, a league with two franchises of different names lists the
      second one twice, while the intended list shows both. */
  lemma AliasedHidesFirstFranchise(franchises: map<Uuid, Franchise>, a: Uuid, b: Uuid)
    requires a in franchises && b in franchises
    requires franchises[a].name != franchises[b].name
    ensures Aliased(franchises, [a, b]) == [ItemOf(franchises, b), ItemOf(franchises, b)]
    ensures Listed(franchises, [a, b]) == [ItemOf(franchises, a), ItemOf(franchises, b)]
    ensures Aliased(franchises, [a, b]) != Listed(franchises, [a, b])
  {
    assert Listed(franchises, [a, b])[0].name != Aliased(franchises, [a, b])[0].name;
  }

  /** The intended list names every franchise of the league exactly once. */
  lemma ListedNamesEveryMember(franchises: map<Uuid, Franchise>, league: Uuid, order: seq<Uuid>)
    requires Enumerates(order, Members(franchises, league))
    requires order != []
    ensures forall i :: 0 <= i < |order| ==> order[i] in franchises
    ensures |Listed(franchises, order)| == |Members(franchises, league)|
    ensures forall f :: f in Members(franchises, league) ==> ItemOf(franchises, f) in Listed(franchises, order)
  {
    EnumerationLength(order, Members(franchises, league));
    forall f | f in Members(franchises, league) ensures ItemOf(franchises, f) in Listed(franchises, order) {
      var i :| 0 <= i < |order| && order[i] == f;
      assert Listed(franchises, order)[i] == ItemOf(franchises, f);
    }
  }
}
