/** The older league and franchise service (service/fantasy.go), which the
    end-to-end tests in test/fantasy_test.go exercise. It stores leagues by
    founder and name, franchises by owner and name, and lists the leagues a
    user takes part in. */
module Fantasy {
  import opened Base
  import opened Store

  /** A league row as this service writes it. */
  datatype LegacyLeague = LegacyLeague(founder: Uuid, name: string, foundationYear: string, maxFranchises: int)

  /** A franchise row as this service writes it. */
  datatype LegacyFranchise = LegacyFranchise(owner: Uuid, name: string, foundationYear: string, leagueId: Uuid)

  /** The two tables this service reads and writes. */
  class LegacyRepository {
    var leagues: map<Uuid, LegacyLeague>
    var franchises: map<Uuid, LegacyFranchise>

    constructor ()
      ensures leagues == map[] && franchises == map[]
    {
      leagues, franchises := map[], map[];
    }
  }

  /** pb.LeagueRequest in this version. */
  datatype LeagueRequest = LeagueRequest(userId: RawId, leagueName: string, foundationYear: string, maxFranchises: int)

  /** pb.FranchiseRequest in this version. */
  datatype FranchiseRequest = FranchiseRequest(leagueId: RawId, franchiseOwner: RawId, franchiseName: string, foundationYear: string)

  datatype LeagueResponse = LeagueResponse(status: int, error: string, leagueId: string)
  datatype FranchiseResponse = FranchiseResponse(status: int, error: string, franchiseId: string)

  const ExistsError: string := "League already exists"

  function UnknownLeagueError(raw: RawId): string
  {
    "Franchise cannot be created, provided leagueId (" + raw.Text() + ") does not exist"
  }

  function NameTakenError(name: string): string
  {
    "Franchise cannot be created, franchise with name (" + name + ") already exisits in this league"
  }

  function CapacityError(max: int): string
  {
    "Franchise cannot be created, maximum number of franchises already created (" + DecimalString(max) + ")"
  }

  /** The lookup `Where(&League{LeagueName}).First` finds a row; an empty
      name drops out of the condition and matches any league. */
  predicate LeagueNameTaken(leagues: map<Uuid, LegacyLeague>, name: string)
  {
    exists l :: l in leagues && FieldMatches(name, leagues[l].name)
  }

  /** What CreateLeague decides: the reply of a refused request, or the row
      to insert. */
  datatype LeagueDecision = LeagueRefused(reply: Reply<LeagueResponse>) | LeagueAdmitted(league: LegacyLeague)

  function DecideLeague(leagues: map<Uuid, LegacyLeague>, req: LeagueRequest): LeagueDecision
  {
    if LeagueNameTaken(leagues, req.leagueName) then
      LeagueRefused(Answered(LeagueResponse(StatusConflict, ExistsError, "")))
    else if req.userId.Malformed? then LeagueRefused(Panicked(BadUuid(req.userId)))
    else LeagueAdmitted(LegacyLeague(req.userId.id, req.leagueName, req.foundationYear, req.maxFranchises))
  }

  /** The CreateLeague RPC of this version; any name is accepted once. */
  method CreateLeague(repo: LegacyRepository, req: LeagueRequest, newId: Uuid) returns (reply: Reply<LeagueResponse>)
    requires newId !in repo.leagues
    modifies repo
    ensures DecideLeague(old(repo.leagues), req).LeagueRefused? ==>
      reply == DecideLeague(old(repo.leagues), req).reply && repo.leagues == old(repo.leagues)
    ensures DecideLeague(old(repo.leagues), req).LeagueAdmitted? ==>
      && reply == Answered(LeagueResponse(StatusCreated, "", UuidText(newId)))
      && repo.leagues == old(repo.leagues)[newId := DecideLeague(old(repo.leagues), req).league]
    ensures repo.franchises == old(repo.franchises)
  {
    if LeagueNameTaken(repo.leagues, req.leagueName) {
      return Answered(LeagueResponse(StatusConflict, ExistsError, ""));
    }
    var founder := req.userId.Parse();
    if founder.None? {
      return Panicked(BadUuid(req.userId));
    }
    repo.leagues := repo.leagues[newId := LegacyLeague(founder.value, req.leagueName, req.foundationYear, req.maxFranchises)];
    reply := Answered(LeagueResponse(StatusCreated, "", UuidText(newId)));
  }

  /** League names stay unique: a created league's name was unused. */
  lemma CreateLeagueKeepsNamesUnique(leagues: map<Uuid, LegacyLeague>, req: LeagueRequest, newId: Uuid)
    requires newId !in leagues
    requires forall a, b :: a in leagues && b in leagues && a != b ==> leagues[a].name != leagues[b].name
    requires DecideLeague(leagues, req).LeagueAdmitted?
    ensures var after := leagues[newId := DecideLeague(leagues, req).league];
      forall a, b :: a in after && b in after && a != b ==> after[a].name != after[b].name
  {
    var after := leagues[newId := DecideLeague(leagues, req).league];
    forall a, b | a in after && b in after && a != b
      ensures after[a].name != after[b].name
    {
      if a == newId {
        assert !FieldMatches(req.leagueName, leagues[b].name);
      } else if b == newId {
        assert !FieldMatches(req.leagueName, leagues[a].name);
      }
    }
  }

  function Members(franchises: map<Uuid, LegacyFranchise>, league: Uuid): set<Uuid>
  {
    set f | f in franchises && franchises[f].leagueId == league
  }

  predicate FranchiseNameTaken(franchises: map<Uuid, LegacyFranchise>, league: Uuid, name: string)
  {
    exists f :: f in franchises && franchises[f].leagueId == league && FieldMatches(name, franchises[f].name)
  }

  datatype FranchiseDecision = FranchiseRefused(reply: Reply<FranchiseResponse>) | FranchiseAdmitted(franchise: LegacyFranchise)

  function Conflict(error: string): Reply<FranchiseResponse>
  {
    Answered(FranchiseResponse(StatusConflict, error, ""))
  }

  /** The checks of this version's CreateFranchise, in its order. */
  function DecideFranchise(leagues: map<Uuid, LegacyLeague>, franchises: map<Uuid, LegacyFranchise>,
                           req: FranchiseRequest): FranchiseDecision
  {
    if req.leagueId.Malformed? then FranchiseRefused(Panicked(BadUuid(req.leagueId)))
    else if req.leagueId.id !in leagues then FranchiseRefused(Conflict(UnknownLeagueError(req.leagueId)))
    else if FranchiseNameTaken(franchises, req.leagueId.id, req.franchiseName) then
      FranchiseRefused(Conflict(NameTakenError(req.franchiseName)))
    else if |Members(franchises, req.leagueId.id)| >= leagues[req.leagueId.id].maxFranchises then
      FranchiseRefused(Conflict(CapacityError(leagues[req.leagueId.id].maxFranchises)))
    else if req.franchiseOwner.Malformed? then FranchiseRefused(Panicked(BadUuid(req.franchiseOwner)))
    else FranchiseAdmitted(LegacyFranchise(req.franchiseOwner.id, req.franchiseName, req.foundationYear, req.leagueId.id))
  }

  method CreateFranchise(repo: LegacyRepository, req: FranchiseRequest, newId: Uuid) returns (reply: Reply<FranchiseResponse>)
    requires newId !in repo.franchises
    modifies repo
    ensures DecideFranchise(old(repo.leagues), old(repo.franchises), req).FranchiseRefused? ==>
      reply == DecideFranchise(old(repo.leagues), old(repo.franchises), req).reply && repo.franchises == old(repo.franchises)
    ensures DecideFranchise(old(repo.leagues), old(repo.franchises), req).FranchiseAdmitted? ==>
      && reply == Answered(FranchiseResponse(StatusCreated, "", UuidText(newId)))
      && repo.franchises == old(repo.franchises)[newId := DecideFranchise(old(repo.leagues), old(repo.franchises), req).franchise]
    ensures repo.leagues == old(repo.leagues)
  {
    var leagueId := req.leagueId.Parse();
    if leagueId.None? {
      return Panicked(BadUuid(req.leagueId));
    }
    if leagueId.value !in repo.leagues {
      return Conflict(UnknownLeagueError(req.leagueId));
    }
    var league := repo.leagues[leagueId.value];
    if FranchiseNameTaken(repo.franchises, leagueId.value, req.franchiseName) {
      return Conflict(NameTakenError(req.franchiseName));
    }
    if |Members(repo.franchises, leagueId.value)| >= league.maxFranchises {
      return Conflict(CapacityError(league.maxFranchises));
    }
    var owner := req.franchiseOwner.Parse();
    if owner.None? {
      return Panicked(BadUuid(req.franchiseOwner));
    }
    repo.franchises := repo.franchises[newId := LegacyFranchise(owner.value, req.franchiseName, req.foundationYear, leagueId.value)];
    reply := Answered(FranchiseResponse(StatusCreated, "", UuidText(newId)));
  }

  /** An accepted franchise is the league's only new member, under a name
      no member of the league holds yet, and the league stays within its
      maximum. */
  lemma AdmittedFranchiseFits(leagues: map<Uuid, LegacyLeague>, franchises: map<Uuid, LegacyFranchise>,
                              req: FranchiseRequest, newId: Uuid)
    requires newId !in franchises
    requires DecideFranchise(leagues, franchises, req).FranchiseAdmitted?
    ensures var after := franchises[newId := DecideFranchise(leagues, franchises, req).franchise];
      && Members(after, req.leagueId.id) == Members(franchises, req.leagueId.id) + {newId}
      && |Members(after, req.leagueId.id)| <= leagues[req.leagueId.id].maxFranchises
    ensures forall f :: f in Members(franchises, req.leagueId.id) ==> franchises[f].name != req.franchiseName
  {
    var after := franchises[newId := DecideFranchise(leagues, franchises, req).franchise];
    var l := req.leagueId.id;
    forall g | g in Members(after, l) ensures g in Members(franchises, l) + {newId} {
      if g != newId {
        assert franchises[g] == after[g];
      }
    }
    assert Members(after, l) == Members(franchises, l) + {newId};
  }

  /** `n` zero digits. */
  function Zeros(n: nat): string
  {
    seq(n, _ => '0')
  }

  /** "00000000-0000-0000-0000-000000000000", the nil uuid's text. */
  const NilText: string := Zeros(8) + "-" + Zeros(4) + "-" + Zeros(4) + "-" + Zeros(4) + "-" + Zeros(12)

  /** The names the end-to-end tests use. */
  const TestLeagueName: string := "TestLeague"
  const TestFoundationYear: string := "2022"
  const TestFranchiseName: string := "TestFranchise"
  const TestFranchiseName2: string := "TestFranchise2"

  lemma {:induction false} HexOfZero(width: nat)
    ensures Hex(0, width) == seq(width, _ => '0')
  {
    if width > 0 {
      HexOfZero(width - 1);
    }
  }

  /** The tests' user id and wrong league id: the nil uuid's text. */
  lemma NilUuidText()
    ensures UuidText(NilUuid) == NilText
  {
    HexOfZero(32);
    var h := Hex(0, 32);
    assert h[..8] == Zeros(8);
    assert h[8..12] == h[12..16] == h[16..20] == Zeros(4);
    assert h[20..] == Zeros(12);
  }

  /** TestLeagueCreation: with no "TestLeague" stored, the first creation is
      accepted and the identical second one is refused with "League already
      exists". */
  lemma LeagueCreationScenario(leagues: map<Uuid, LegacyLeague>, newId: Uuid)
    requires newId !in leagues
    requires forall l :: l in leagues ==> leagues[l].name != TestLeagueName
    ensures var req := LeagueRequest(Canonical(0), TestLeagueName, TestFoundationYear, 1);
      && DecideLeague(leagues, req) == LeagueAdmitted(LegacyLeague(0, TestLeagueName, TestFoundationYear, 1))
      && DecideLeague(leagues[newId := DecideLeague(leagues, req).league], req)
           == LeagueRefused(Answered(LeagueResponse(StatusConflict, ExistsError, "")))
  {
    var req := LeagueRequest(Canonical(0), TestLeagueName, TestFoundationYear, 1);
    var after := leagues[newId := LegacyLeague(0, TestLeagueName, TestFoundationYear, 1)];
    assert FieldMatches(req.leagueName, after[newId].name);
  }

  /** The league the franchise test creates, admitting one franchise, and
      the franchise it registers first. */
  const TestLeague: LegacyLeague := LegacyLeague(0, TestLeagueName, TestFoundationYear, 1)

  function TestFranchise(leagueId: Uuid): LegacyFranchise
  {
    LegacyFranchise(0, TestFranchiseName, TestFoundationYear, leagueId)
  }

  function TestRequest(leagueId: RawId, name: string): FranchiseRequest
  {
    FranchiseRequest(leagueId, Canonical(0), name, TestFoundationYear)
  }

  /** The first franchise in the fresh, empty test league is accepted. */
  lemma FirstFranchiseAccepted(leagues: map<Uuid, LegacyLeague>, franchises: map<Uuid, LegacyFranchise>, leagueId: Uuid)
    requires leagueId in leagues && leagues[leagueId] == TestLeague
    requires forall f :: f in franchises ==> franchises[f].leagueId != leagueId
    ensures DecideFranchise(leagues, franchises, TestRequest(Canonical(leagueId), TestFranchiseName))
      == FranchiseAdmitted(TestFranchise(leagueId))
  {
    assert Members(franchises, leagueId) == {};
  }

  /** The nil uuid names no league: the request is refused with the id as
      sent. */
  lemma NilLeagueRefused(leagues: map<Uuid, LegacyLeague>, franchises: map<Uuid, LegacyFranchise>)
    requires 0 !in leagues
    ensures DecideFranchise(leagues, franchises, TestRequest(Canonical(0), TestFranchiseName2))
      == FranchiseRefused(Conflict(UnknownLeagueError(Canonical(0))))
    ensures Canonical(0).Text() == NilText
  {
    NilUuidText();
  }

  lemma SoleMember(franchises: map<Uuid, LegacyFranchise>, league: Uuid, only: Uuid, g: Uuid)
    requires Members(franchises, league) == {only}
    requires g in franchises && franchises[g].leagueId == league
    ensures g == only
  {
    assert g in Members(franchises, league);
  }

  /** With the test franchise the only member, a second name finds the league
      full. */
  lemma SecondNameFindsLeagueFull(leagues: map<Uuid, LegacyLeague>, franchises: map<Uuid, LegacyFranchise>,
                                  leagueId: Uuid, franchiseId: Uuid)
    requires leagueId in leagues && leagues[leagueId] == TestLeague
    requires Members(franchises, leagueId) == {franchiseId} && franchises[franchiseId] == TestFranchise(leagueId)
    ensures DecideFranchise(leagues, franchises, TestRequest(Canonical(leagueId), TestFranchiseName2))
      == FranchiseRefused(Conflict(CapacityError(1)))
  {
    if FranchiseNameTaken(franchises, leagueId, TestFranchiseName2) {
      // the only member of the league carries the other name
      var g :| g in franchises && franchises[g].leagueId == leagueId && FieldMatches(TestFranchiseName2, franchises[g].name);
      SoleMember(franchises, leagueId, franchiseId, g);
      assert false;
    }
  }

  /** In the same full league the first name again meets the name check
      before the capacity check. */
  lemma RepeatedNameRefused(leagues: map<Uuid, LegacyLeague>, franchises: map<Uuid, LegacyFranchise>,
                            leagueId: Uuid, franchiseId: Uuid)
    requires leagueId in leagues && leagues[leagueId] == TestLeague
    requires franchiseId in franchises && franchises[franchiseId] == TestFranchise(leagueId)
    ensures DecideFranchise(leagues, franchises, TestRequest(Canonical(leagueId), TestFranchiseName))
      == FranchiseRefused(Conflict(NameTakenError(TestFranchiseName)))
  {
    assert FieldMatches(TestFranchiseName, franchises[franchiseId].name);
  }

  /** TestFranchiseCreation: the four requests of the test, in order, from a
      store where the new league's key and the nil uuid are unused. */
  lemma FranchiseCreationScenario(leagues: map<Uuid, LegacyLeague>, franchises: map<Uuid, LegacyFranchise>,
                                  leagueId: Uuid, franchiseId: Uuid)
    requires leagueId !in leagues && leagueId != 0 && 0 !in leagues
    requires franchiseId !in franchises
    requires forall f :: f in franchises ==> franchises[f].leagueId != leagueId
    ensures var ls := leagues[leagueId := TestLeague];
      var fs := franchises[franchiseId := TestFranchise(leagueId)];
      && DecideFranchise(ls, franchises, TestRequest(Canonical(leagueId), TestFranchiseName))
           == FranchiseAdmitted(TestFranchise(leagueId))
      && DecideFranchise(ls, fs, TestRequest(Canonical(0), TestFranchiseName2))
           == FranchiseRefused(Conflict(UnknownLeagueError(Canonical(0))))
      && DecideFranchise(ls, fs, TestRequest(Canonical(leagueId), TestFranchiseName2))
           == FranchiseRefused(Conflict(CapacityError(1)))
      && DecideFranchise(ls, fs, TestRequest(Canonical(leagueId), TestFranchiseName))
           == FranchiseRefused(Conflict(NameTakenError(TestFranchiseName)))
  {
    var ls := leagues[leagueId := TestLeague];
    var fs := franchises[franchiseId := TestFranchise(leagueId)];
    FirstFranchiseAccepted(ls, franchises, leagueId);
    NilLeagueRefused(ls, fs);
    assert Members(fs, leagueId) == {franchiseId};
    SecondNameFindsLeagueFull(ls, fs, leagueId, franchiseId);
    RepeatedNameRefused(ls, fs, leagueId, franchiseId);
  }

  /** pb.Franchise as the user listing fills it. */
  datatype FranchiseView = FranchiseView(id: string, owner: string, name: string, foundationYear: string)

  const Blank: FranchiseView := FranchiseView("", "", "", "")

  /** pb.League as the user listing fills it. */
  datatype LeagueView = LeagueView(
    id: string,
    founder: string,
    name: string,
    foundationYear: string,
    maxFranchises: int,
    franchises: seq<FranchiseView>)

  /** pb.LeagueResultResponse. */
  datatype LeagueResultResponse = LeagueResultResponse(status: int, error: string, result: seq<LeagueView>)

  function ViewOf(franchises: map<Uuid, LegacyFranchise>, f: Uuid): FranchiseView
    requires f in franchises
  {
    var r := franchises[f];
    FranchiseView(UuidText(f), UuidText(r.owner), r.name, r.foundationYear)
  }

  function Heading(id: Uuid, l: LegacyLeague, items: seq<FranchiseView>): LeagueView
  {
    LeagueView(UuidText(id), UuidText(l.founder), l.name, l.foundationYear, l.maxFranchises, items)
  }

  /** A league is listed for a user who founded it, and for everyone once it
      has a franchise. */
  predicate Listed(leagues: map<Uuid, LegacyLeague>, franchises: map<Uuid, LegacyFranchise>, l: Uuid, userId: string)
    requires l in leagues
  {
    UuidText(leagues[l].founder) == userId || Members(franchises, l) != {}
  }

  /** A franchise entry of the listing: the placeholder, or a franchise the
      user owns. */
  ghost predicate OwnEntry(franchises: map<Uuid, LegacyFranchise>, v: FranchiseView, userId: string)
  {
    v == Blank || exists f :: f in franchises && UuidText(franchises[f].owner) == userId && v == ViewOf(franchises, f)
  }

  /** The franchises among `members` that the user owns. */
  function Owned(franchises: map<Uuid, LegacyFranchise>, members: set<Uuid>, userId: string): set<Uuid>
    requires members <= franchises.Keys
  {
    set f | f in members && UuidText(franchises[f].owner) == userId
  }

  /** What the loop over a league's members has built once the members
      outside `todo` are visited, `mine` being the members the user owns:
      one entry per visited one of them, each the temporary, which holds
      the last of them. */
  ghost predicate Gathered(franchises: map<Uuid, LegacyFranchise>, mine: set<Uuid>,
                           todo: set<Uuid>, entries: seq<FranchiseView>, tmp: FranchiseView, last: Uuid)
  {
    && mine <= franchises.Keys
    && |entries| == |mine - todo|
    && (entries != [] ==> last in mine - todo && tmp == ViewOf(franchises, last))
    && (forall k :: 0 <= k < |entries| ==> entries[k] == tmp)
  }

  /** Visiting a franchise the user owns appends one more entry and points
      the temporary at it. */
  lemma GatheredOwned(franchises: map<Uuid, LegacyFranchise>, mine: set<Uuid>,
                      todo: set<Uuid>, entries: seq<FranchiseView>, tmp: FranchiseView, last: Uuid, f: Uuid)
    requires Gathered(franchises, mine, todo, entries, tmp, last)
    requires f in todo && f in mine
    ensures var v := ViewOf(franchises, f);
      Gathered(franchises, mine, todo - {f}, seq(|entries| + 1, _ => v), v, f)
  {
    assert f !in mine - todo;
    assert mine - (todo - {f}) == (mine - todo) + {f};
  }

  /** Visiting a franchise of someone else changes nothing. */
  lemma GatheredOther(franchises: map<Uuid, LegacyFranchise>, mine: set<Uuid>,
                      todo: set<Uuid>, entries: seq<FranchiseView>, tmp: FranchiseView, last: Uuid, f: Uuid)
    requires Gathered(franchises, mine, todo, entries, tmp, last)
    requires f in todo && f !in mine
    ensures Gathered(franchises, mine, todo - {f}, entries, tmp, last)
  {
    assert mine - (todo - {f}) == mine - todo;
  }

  /** Once every member is visited, the entries are one per franchise the
      user owns, each showing the last of them, so each the user's own. */
  lemma GatheredAll(franchises: map<Uuid, LegacyFranchise>, members: set<Uuid>, userId: string,
                    entries: seq<FranchiseView>, tmp: FranchiseView, last: Uuid)
    requires members <= franchises.Keys
    requires Gathered(franchises, Owned(franchises, members, userId), {}, entries, tmp, last)
    ensures |entries| == |Owned(franchises, members, userId)|
    ensures entries != [] ==>
      exists f :: f in Owned(franchises, members, userId) && forall k :: 0 <= k < |entries| ==> entries[k] == ViewOf(franchises, f)
    ensures forall k :: 0 <= k < |entries| ==> OwnEntry(franchises, entries[k], userId)
  {
    var mine := Owned(franchises, members, userId);
    assert mine - {} == mine;
    if entries != [] {
      assert last in franchises && UuidText(franchises[last].owner) == userId;
      assert OwnEntry(franchises, ViewOf(franchises, last), userId);
    }
  }

  /** The entries one league adds to the user listing: the placeholder when
      the league has no franchise, otherwise one entry per franchise of the
      league the user owns, all of them the address of one temporary, so
      all of them show the same one of those franchises (the last visited). */
  method OwnedEntries(franchises: map<Uuid, LegacyFranchise>, members: set<Uuid>, userId: string)
    returns (entries: seq<FranchiseView>)
    requires members <= franchises.Keys
    ensures members == {} ==> entries == [Blank]
    ensures members != {} ==> |entries| == |Owned(franchises, members, userId)|
    ensures members != {} && entries != [] ==>
      exists f :: f in Owned(franchises, members, userId) && forall k :: 0 <= k < |entries| ==> entries[k] == ViewOf(franchises, f)
    ensures forall k :: 0 <= k < |entries| ==> OwnEntry(franchises, entries[k], userId)
  {
    if members == {} {
      return [Blank];
    }
    ghost var mine := Owned(franchises, members, userId);
    var tmp := Blank;
    ghost var last: Uuid := 0;
    entries := [];
    var todo := members;
    assert mine - todo == {};
    while todo != {}
      invariant todo <= members
      invariant Gathered(franchises, mine, todo, entries, tmp, last)
      decreases |todo|
    {
      var f :| f in todo;
      if UuidText(franchises[f].owner) == userId {
        assert f in mine;
        GatheredOwned(franchises, mine, todo, entries, tmp, last, f);
        tmp := ViewOf(franchises, f);
        last := f;
        // each appended entry is the address of `tmp`
        entries := seq(|entries| + 1, _ => tmp);
      } else {
        GatheredOther(franchises, mine, todo, entries, tmp, last, f);
      }
      todo := todo - {f};
    }
    GatheredAll(franchises, members, userId, entries, tmp, last);
  }

  /** What the listing loop has built once the leagues outside `rest` are
      done: `shown` lists, once each and in answer order, the done leagues
      the user takes part in; each answer carries its league's columns and a
      prefix of the shared franchise list, the later ones longer prefixes;
      every entry of that list is the placeholder or the user's own. */
  ghost predicate Listing(leagues: map<Uuid, LegacyLeague>, franchises: map<Uuid, LegacyFranchise>, userId: string,
                          rest: set<Uuid>, shown: seq<Uuid>, leagueRes: seq<LeagueView>, franchisesRes: seq<FranchiseView>)
  {
    && |leagueRes| == |shown|
    && (forall i, j :: 0 <= i < j < |shown| ==> shown[i] != shown[j])
    && (forall l :: l in shown <==> l in leagues && l !in rest && Listed(leagues, franchises, l, userId))
    && (forall i :: 0 <= i < |shown| ==>
          shown[i] in leagues && leagueRes[i] == Heading(shown[i], leagues[shown[i]], leagueRes[i].franchises))
    && (forall k :: 0 <= k < |franchisesRes| ==> OwnEntry(franchises, franchisesRes[k], userId))
    && (forall i :: 0 <= i < |leagueRes| ==> leagueRes[i].franchises <= franchisesRes)
    && (forall i, j :: 0 <= i < j < |leagueRes| ==> leagueRes[i].franchises <= leagueRes[j].franchises)
  }

  /** One league of the loop that is answered: its entries join the shared
      list, and its heading shows the list so far. */
  lemma ListingKeeps(leagues: map<Uuid, LegacyLeague>, franchises: map<Uuid, LegacyFranchise>, userId: string,
                     rest: set<Uuid>, shown: seq<Uuid>, leagueRes: seq<LeagueView>, franchisesRes: seq<FranchiseView>,
                     l: Uuid, entries: seq<FranchiseView>)
    requires Listing(leagues, franchises, userId, rest, shown, leagueRes, franchisesRes)
    requires l in rest && l in leagues && Listed(leagues, franchises, l, userId)
    requires forall k :: 0 <= k < |entries| ==> OwnEntry(franchises, entries[k], userId)
    ensures var all := franchisesRes + entries;
      Listing(leagues, franchises, userId, rest - {l}, shown + [l], leagueRes + [Heading(l, leagues[l], all)], all)
  {
    var all := franchisesRes + entries;
    ListingKeepsLeagues(leagues, franchises, userId, rest, shown, leagueRes, franchisesRes, l, all);
    ListingKeepsEntries(leagues, franchises, userId, rest, shown, leagueRes, franchisesRes, l, entries);
  }

  /** The league half of ListingKeeps: the answered league joins `shown`
      once, with its heading. */
  lemma ListingKeepsLeagues(leagues: map<Uuid, LegacyLeague>, franchises: map<Uuid, LegacyFranchise>, userId: string,
                            rest: set<Uuid>, shown: seq<Uuid>, leagueRes: seq<LeagueView>, franchisesRes: seq<FranchiseView>,
                            l: Uuid, all: seq<FranchiseView>)
    requires Listing(leagues, franchises, userId, rest, shown, leagueRes, franchisesRes)
    requires l in rest && l in leagues && Listed(leagues, franchises, l, userId)
    ensures var shown', lr := shown + [l], leagueRes + [Heading(l, leagues[l], all)];
      && |lr| == |shown'|
      && (forall i, j :: 0 <= i < j < |shown'| ==> shown'[i] != shown'[j])
      && (forall l' :: l' in shown' <==> l' in leagues && l' !in rest - {l} && Listed(leagues, franchises, l', userId))
      && (forall i :: 0 <= i < |shown'| ==>
            shown'[i] in leagues && lr[i] == Heading(shown'[i], leagues[shown'[i]], lr[i].franchises))
  {
    assert l !in shown;
    var lr := leagueRes + [Heading(l, leagues[l], all)];
    assert forall i :: 0 <= i < |leagueRes| ==> lr[i] == leagueRes[i];
  }

  /** The entry half of ListingKeeps: the shared list grows by the league's
      entries, and the new heading shows all of it. */
  lemma ListingKeepsEntries(leagues: map<Uuid, LegacyLeague>, franchises: map<Uuid, LegacyFranchise>, userId: string,
                            rest: set<Uuid>, shown: seq<Uuid>, leagueRes: seq<LeagueView>, franchisesRes: seq<FranchiseView>,
                            l: Uuid, entries: seq<FranchiseView>)
    requires Listing(leagues, franchises, userId, rest, shown, leagueRes, franchisesRes)
    requires l in leagues
    requires forall k :: 0 <= k < |entries| ==> OwnEntry(franchises, entries[k], userId)
    ensures var all := franchisesRes + entries;
      var lr := leagueRes + [Heading(l, leagues[l], all)];
      && (forall k :: 0 <= k < |all| ==> OwnEntry(franchises, all[k], userId))
      && (forall i :: 0 <= i < |lr| ==> lr[i].franchises <= all)
      && (forall i, j :: 0 <= i < j < |lr| ==> lr[i].franchises <= lr[j].franchises)
  {
    var all := franchisesRes + entries;
    assert franchisesRes <= all;
    var lr := leagueRes + [Heading(l, leagues[l], all)];
    assert forall i :: 0 <= i < |leagueRes| ==> lr[i] == leagueRes[i];
  }

  /** One league of the loop that is not answered: its entries still join
      the shared list. */
  lemma ListingSkips(leagues: map<Uuid, LegacyLeague>, franchises: map<Uuid, LegacyFranchise>, userId: string,
                     rest: set<Uuid>, shown: seq<Uuid>, leagueRes: seq<LeagueView>, franchisesRes: seq<FranchiseView>,
                     l: Uuid, entries: seq<FranchiseView>)
    requires Listing(leagues, franchises, userId, rest, shown, leagueRes, franchisesRes)
    requires l in rest && l in leagues && !Listed(leagues, franchises, l, userId)
    requires forall k :: 0 <= k < |entries| ==> OwnEntry(franchises, entries[k], userId)
    ensures Listing(leagues, franchises, userId, rest - {l}, shown, leagueRes, franchisesRes + entries)
  {
    assert franchisesRes <= franchisesRes + entries;
  }

  /** Once every league is done, the listing answers exactly the leagues
      the user takes part in, and every franchise entry of every answer is
      the placeholder or the user's own. */
  lemma ListingDone(leagues: map<Uuid, LegacyLeague>, franchises: map<Uuid, LegacyFranchise>, userId: string,
                    shown: seq<Uuid>, leagueRes: seq<LeagueView>, franchisesRes: seq<FranchiseView>)
    requires Listing(leagues, franchises, userId, {}, shown, leagueRes, franchisesRes)
    ensures forall l :: l in shown <==> l in leagues && Listed(leagues, franchises, l, userId)
    ensures forall i, k :: 0 <= i < |leagueRes| && 0 <= k < |leagueRes[i].franchises| ==>
      OwnEntry(franchises, leagueRes[i].franchises[k], userId)
  {
    assert forall i, k :: 0 <= i < |leagueRes| && 0 <= k < |leagueRes[i].franchises| ==>
      leagueRes[i].franchises[k] == franchisesRes[k];
  }

  /** The GetAllLeaguesForUser RPC, with its two pointer effects kept: the
      franchise list is one slice that grows across leagues, so each league
      shows every entry appended so far; and within a league every appended
      entry is the address of one temporary, so they all show the league's
      last franchise owned by the user. `shown` names the listed leagues in
      answer order. */
  method GetAllLeaguesForUser(repo: LegacyRepository, userId: string)
    returns (resp: LeagueResultResponse, ghost shown: seq<Uuid>)
    ensures resp.status == StatusCreated && resp.error == ""
    ensures |resp.result| == |shown|
    ensures forall i, j :: 0 <= i < j < |shown| ==> shown[i] != shown[j]
    ensures forall l :: l in shown <==> l in repo.leagues && Listed(repo.leagues, repo.franchises, l, userId)
    ensures forall i :: 0 <= i < |shown| ==>
      shown[i] in repo.leagues &&
      resp.result[i] == Heading(shown[i], repo.leagues[shown[i]], resp.result[i].franchises)
    ensures forall i, k :: 0 <= i < |resp.result| && 0 <= k < |resp.result[i].franchises| ==>
      OwnEntry(repo.franchises, resp.result[i].franchises[k], userId)
    ensures forall i, j :: 0 <= i < j < |resp.result| ==> resp.result[i].franchises <= resp.result[j].franchises
  {
    var leagueRes: seq<LeagueView> := [];
    var franchisesRes: seq<FranchiseView> := [];
    shown := [];
    var rest := repo.leagues.Keys;
    while rest != {}
      invariant rest <= repo.leagues.Keys
      invariant Listing(repo.leagues, repo.franchises, userId, rest, shown, leagueRes, franchisesRes)
      decreases |rest|
    {
      var l :| l in rest;
      var members := Members(repo.franchises, l);
      var entries := OwnedEntries(repo.franchises, members, userId);
      if UuidText(repo.leagues[l].founder) == userId || members != {} {
        ListingKeeps(repo.leagues, repo.franchises, userId, rest, shown, leagueRes, franchisesRes, l, entries);
        franchisesRes := franchisesRes + entries;
        leagueRes := leagueRes + [Heading(l, repo.leagues[l], franchisesRes)];
        shown := shown + [l];
      } else {
        ListingSkips(repo.leagues, repo.franchises, userId, rest, shown, leagueRes, franchisesRes, l, entries);
        franchisesRes := franchisesRes + entries;
      }
      rest := rest - {l};
    }
    ListingDone(repo.leagues, repo.franchises, userId, shown, leagueRes, franchisesRes);
    resp := LeagueResultResponse(StatusCreated, "", leagueRes);
  }
}
