/** The pick board (service/picks.go): creating or repositioning the picks
    of a draft from the lottery results, and the two pick listings.
    The board runs without a transaction, so whatever it wrote before it
    stops stays written. */
module Picks {
  import opened Base
  import opened Records
  import opened Store

  /** One entry of pb.CreateOrUpdatePicksRequest: a franchise, the draft
      year and the franchise's lottery position (0 before the lottery). */
  datatype PicksEntry = PicksEntry(franchiseId: RawId, franchise: string, year: int, lotteryPosition: int)

  datatype PicksRequest = PicksRequest(leagueId: RawId, picks: seq<PicksEntry>)

  /** The natural key a pick is looked up by: the franchise it originates
      from, the draft year and the round. */
  datatype NaturalKey = NaturalKey(origin: Uuid, year: int, round: int)

  predicate HasKey(p: Pick, key: NaturalKey)
  {
    p.origin == key.origin && p.draftYear == key.year && p.draftRound == key.round
  }

  /** The rows the `origin_id = ? AND draft_year = ? AND draft_round = ?`
      query finds. */
  function KeyMatches(picks: map<Uuid, Pick>, key: NaturalKey): set<Uuid>
  {
    set id | id in picks && HasKey(picks[id], key)
  }

  /** Position within the round: the lottery position, or null before the
      lottery. */
  function InRound(lottery: int): Option<int>
  {
    if lottery == 0 then None else Some(lottery)
  }

  /** Overall position: the lottery position plus one full round of
      `n` picks for every earlier round, or null before the lottery. */
  function Overall(lottery: int, round: int, n: int): Option<int>
  {
    if lottery == 0 then None else Some(lottery + (round - 1) * n)
  }

  /** The pick created for a key nobody holds yet: owned, last owned and
      originated by the entry's franchise, with no prospect. */
  function NewPick(e: PicksEntry, origin: Uuid, round: int, n: int): Pick
  {
    Pick(e.year, round, Overall(e.lotteryPosition, round, n), InRound(e.lotteryPosition), None,
         origin, e.franchise, origin, e.franchise, origin, e.franchise)
  }

  /** The write made to the one pick found for a key: year, round and both
      positions; everything else as loaded. */
  function Reposition(p: Pick, e: PicksEntry, round: int, n: int): Pick
  {
    p.(draftYear := e.year, draftRound := round,
       pickOverall := Overall(e.lotteryPosition, round, n), pickInRound := InRound(e.lotteryPosition))
  }

  /** The pick table while the loops run, how many picks they created (the
      k-th created pick gets the key `gen(k)`), every key looked up so far,
      and, once `uuid.MustParse` has stopped the outer loop, the id it
      rejected. */
  datatype Board =
    | Running(picks: map<Uuid, Pick>, created: nat, lookups: seq<NaturalKey>)
    | Halted(picks: map<Uuid, Pick>, created: nat, lookups: seq<NaturalKey>, bad: RawId)

  /** `m` is the least uuid of `s`. */
  predicate IsLeast(m: Uuid, s: set<Uuid>)
  {
    m in s && forall x :: x in s ==> m <= x
  }

  /** Every non-empty set of uuids has a least member. */
  lemma {:induction false} LeastExists(s: set<Uuid>)
    requires s != {}
    ensures exists m :: IsLeast(m, s)
    decreases |s|
  {
    var y :| y in s;
    var rest := s - {y};
    if rest == {} {
      forall x | x in s
        ensures y <= x
      {
        assert x !in rest;
      }
      assert IsLeast(y, s);
    } else {
      LeastExists(rest);
      var m :| IsLeast(m, rest);
      var least := if y < m then y else m;
      forall x | x in s
        ensures least <= x
      {
        if x != y {
          assert x in rest;
        }
      }
      assert IsLeast(least, s);
    }
  }

  /** The row `Find` reads into its single struct when the query matches
      several: only the first row of the result is scanned. The order the
      store returns the rows in is not fixed; the model takes the least
      key. */
  function FirstRow(found: set<Uuid>): (id: Uuid)
    requires found != {}
    ensures id in found
  {
    LeastExists(found);
    var m :| IsLeast(m, found);
    m
  }

  /** One iteration of the inner loop: look the key up, then create a pick
      when no row matches, or reposition the one row `Find` reads
      otherwise. Since `Find` into a single struct counts at most one row,
      the "Multiple picks" answer of the source is never reached. */
  function Upsert(b: Board, e: PicksEntry, origin: Uuid, round: int, n: nat, gen: nat -> Uuid): (after: Board)
    requires b.Running?
    ensures after.Running?
  {
    var key := NaturalKey(origin, e.year, round);
    var found := KeyMatches(b.picks, key);
    var lookups := b.lookups + [key];
    if |found| == 0 then
      Running(b.picks[gen(b.created) := NewPick(e, origin, round, n)], b.created + 1, lookups)
    else
      var id := FirstRow(found);
      Running(b.picks[id := Reposition(b.picks[id], e, round, n)], b.created, lookups)
  }

  /** Rounds 1 to r of one entry. */
  function Rounds(b: Board, e: PicksEntry, origin: Uuid, r: nat, n: nat, gen: nat -> Uuid): (after: Board)
    requires b.Running?
    ensures after.Running?
  {
    if r == 0 then b else Upsert(Rounds(b, e, origin, r - 1, n, gen), e, origin, r, n, gen)
  }

  /** The outer loop over the entries; an id `uuid.MustParse` rejects stops
      it. */
  function Entries(b: Board, es: seq<PicksEntry>, rounds: nat, n: nat, gen: nat -> Uuid): Board
    requires b.Running?
  {
    if es == [] then b
    else
      var prev := Entries(b, es[..|es| - 1], rounds, n, gen);
      var e := es[|es| - 1];
      if prev.Halted? then prev
      else if e.franchiseId.Malformed? then Halted(prev.picks, prev.created, prev.lookups, e.franchiseId)
      else Rounds(prev, e, e.franchiseId.id, rounds, n, gen)
  }

  /** `for dr := 1; dr <= DraftRounds; dr++` runs this many times. */
  function RoundCount(draftRounds: int): nat
  {
    if draftRounds < 0 then 0 else draftRounds
  }

  datatype Outcome = LeagueIdPanic | NoLeague | Ran(board: Board)

  /** The whole RPC on the tables it reads: the league must exist under the
      given id with the name Lakelandcup; `n` is the number of franchises in
      the whole table. */
  function CreateOrUpdate(leagues: map<Uuid, League>, n: nat, picks: map<Uuid, Pick>,
                          req: PicksRequest, gen: nat -> Uuid): Outcome
  {
    if req.leagueId.Malformed? then LeagueIdPanic
    else if req.leagueId.id !in leagues || leagues[req.leagueId.id].name != LeagueName then NoLeague
    else Ran(Entries(Running(picks, 0, []), req.picks, RoundCount(leagues[req.leagueId.id].draftRounds), n, gen))
  }

  const LeagueMissingError: string := "League does't exist. Error record not found"

  function Answer(o: Outcome, req: PicksRequest): Reply<DefaultResponse>
  {
    match o
    case LeagueIdPanic => Panicked(BadUuid(req.leagueId))
    case NoLeague => Answered(DefaultResponse(StatusConflict, "", LeagueMissingError))
    case Ran(Running(_, _, _)) => Answered(DefaultResponse(StatusCreated, "", ""))
    case Ran(Halted(_, _, _, raw)) => Panicked(BadUuid(raw))
  }

  function PicksAfter(o: Outcome, picks: map<Uuid, Pick>): map<Uuid, Pick>
  {
    if o.Ran? then o.board.picks else picks
  }

  /** The CreateOrUpdatePicks RPC. `gen` stands for the `uuid.New()` of the
      pick's create hook. */
  method CreateOrUpdatePicks(repo: Repository, req: PicksRequest, gen: nat -> Uuid) returns (reply: Reply<DefaultResponse>)
    modifies repo
    ensures var o := CreateOrUpdate(old(repo.leagues), |old(repo.franchises)|, old(repo.picks), req, gen);
      reply == Answer(o, req) && repo.picks == PicksAfter(o, old(repo.picks))
    ensures repo.leagues == old(repo.leagues) && repo.franchises == old(repo.franchises)
    ensures repo.prospects == old(repo.prospects)
  {
    var leagueId := req.leagueId.Parse();
    if leagueId.None? {
      return Panicked(BadUuid(req.leagueId));
    }
    if leagueId.value !in repo.leagues || repo.leagues[leagueId.value].name != LeagueName {
      return Answered(DefaultResponse(StatusConflict, "", LeagueMissingError));
    }
    var league := repo.leagues[leagueId.value];
    var n := |repo.franchises|;
    var rounds := RoundCount(league.draftRounds);
    ghost var start := Running(repo.picks, 0, []);
    var created := 0;
    ghost var lookups: seq<NaturalKey> := [];
    for i := 0 to |req.picks|
      invariant Entries(start, req.picks[..i], rounds, n, gen) == Running(repo.picks, created, lookups)
      invariant repo.leagues == old(repo.leagues) && repo.franchises == old(repo.franchises)
      invariant repo.prospects == old(repo.prospects)
    {
      var e := req.picks[i];
      EntriesSnoc(start, req.picks, i, rounds, n, gen);
      var fId := e.franchiseId.Parse();
      if fId.None? {
        EntriesHaltedStays(start, req.picks, i + 1, rounds, n, gen);
        return Panicked(BadUuid(e.franchiseId));
      }
      created, lookups := UpsertRounds(repo, e, fId.value, rounds, n, gen, created, lookups);
    }
    assert req.picks[..|req.picks|] == req.picks;
    return Answered(DefaultResponse(StatusCreated, "", ""));
  }

  /** One more entry of the outer loop. */
  lemma EntriesSnoc(b: Board, es: seq<PicksEntry>, i: nat, rounds: nat, n: nat, gen: nat -> Uuid)
    requires b.Running? && i < |es|
    ensures var prev := Entries(b, es[..i], rounds, n, gen);
      Entries(b, es[..i + 1], rounds, n, gen) ==
        if prev.Halted? then prev
        else if es[i].franchiseId.Malformed? then Halted(prev.picks, prev.created, prev.lookups, es[i].franchiseId)
        else Rounds(prev, es[i], es[i].franchiseId.id, rounds, n, gen)
  {
    assert es[..i + 1][..i] == es[..i];
  }

  /** The inner loop over rounds 1..DraftRounds for one entry. */
  method UpsertRounds(repo: Repository, e: PicksEntry, origin: Uuid, rounds: nat, n: nat, gen: nat -> Uuid,
                      created0: nat, ghost lookups0: seq<NaturalKey>)
    returns (created: nat, ghost lookups: seq<NaturalKey>)
    modifies repo
    ensures var b := Rounds(Running(old(repo.picks), created0, lookups0), e, origin, rounds, n, gen);
      repo.picks == b.picks && created == b.created && lookups == b.lookups
    ensures repo.leagues == old(repo.leagues) && repo.franchises == old(repo.franchises)
    ensures repo.prospects == old(repo.prospects)
  {
    ghost var entryStart := Running(repo.picks, created0, lookups0);
    created, lookups := created0, lookups0;
    for dr := 1 to rounds + 1
      invariant Rounds(entryStart, e, origin, dr - 1, n, gen) == Running(repo.picks, created, lookups)
      invariant repo.leagues == old(repo.leagues) && repo.franchises == old(repo.franchises)
      invariant repo.prospects == old(repo.prospects)
    {
      var key := NaturalKey(origin, e.year, dr);
      var found := KeyMatches(repo.picks, key);
      lookups := lookups + [key];
      if |found| == 0 {
        repo.picks := repo.picks[gen(created) := NewPick(e, origin, dr, n)];
        created := created + 1;
      } else {
        var id := FirstRow(found);
        repo.picks := repo.picks[id := Reposition(repo.picks[id], e, dr, n)];
      }
    }
  }

  /** Once the outer loop stops, later entries change nothing. */
  lemma {:induction false} EntriesHaltedStays(b: Board, es: seq<PicksEntry>, j: nat, rounds: nat, n: nat, gen: nat -> Uuid)
    requires b.Running? && j <= |es|
    requires Entries(b, es[..j], rounds, n, gen).Halted?
    ensures Entries(b, es, rounds, n, gen) == Entries(b, es[..j], rounds, n, gen)
  {
    if j == |es| {
      assert es[..j] == es;
    } else {
      var front := es[..|es| - 1];
      assert front[..j] == es[..j];
      EntriesHaltedStays(b, front, j, rounds, n, gen);
    }
  }

  // ---- Position arithmetic ----

  /** After the lottery, with positions 1..n in a league of n franchises,
      round r holds exactly the overall positions (r-1)*n+1 .. r*n. */
  lemma OverallInRoundBlock(lottery: int, round: int, n: int)
    requires 1 <= lottery <= n && 1 <= round
    ensures var o := Overall(lottery, round, n).value;
      (round - 1) * n < o <= round * n
  {
    assert round * n == (round - 1) * n + n;
  }

  /** Overall positions are ordered round first, then lottery position, so
      no two (lottery, round) pairs share one. */
  lemma OverallRoundMajor(l1: int, r1: int, l2: int, r2: int, n: int)
    requires 1 <= l1 <= n && 1 <= l2 <= n && 1 <= r1 && 1 <= r2
    ensures Overall(l1, r1, n).value < Overall(l2, r2, n).value <==> r1 < r2 || (r1 == r2 && l1 < l2)
    ensures Overall(l1, r1, n) == Overall(l2, r2, n) <==> l1 == l2 && r1 == r2
  {
    OverallInRoundBlock(l1, r1, n);
    OverallInRoundBlock(l2, r2, n);
    if r1 < r2 {
      MulMonotone(r1, r2 - 1, n);
    } else if r2 < r1 {
      MulMonotone(r2, r1 - 1, n);
    }
  }

  lemma MulMonotone(a: int, b: int, n: int)
    requires a <= b && 0 <= n
    ensures a * n <= b * n
  {
    assert b * n == a * n + (b - a) * n;
  }

  // ---- What the board does to existing and new picks ----

  /** An existing pick keeps everything but its positions. */
  predicate Kept(before: Pick, after: Pick)
  {
    && after.draftYear == before.draftYear && after.draftRound == before.draftRound
    && after.prospect == before.prospect
    && after.owner == before.owner && after.ownerName == before.ownerName
    && after.lastOwner == before.lastOwner && after.lastOwnerName == before.lastOwnerName
    && after.origin == before.origin && after.originName == before.originName
  }

  /** A pick the board created: no prospect, and owner, last owner and
      origin all the same franchise under the same name. */
  predicate OwnedByOrigin(p: Pick)
  {
    && p.prospect.None?
    && p.owner == p.origin && p.lastOwner == p.origin
    && p.ownerName == p.originName && p.lastOwnerName == p.originName
  }

  /** How a board relates to the table it started from, and that the keys
      it has yet to hand out are still free. */
  ghost predicate Evolves(before: map<Uuid, Pick>, b: Board, gen: nat -> Uuid)
  {
    && (forall id :: id in before ==> id in b.picks && Kept(before[id], b.picks[id]))
    && (forall id :: id in b.picks && id !in before ==> OwnedByOrigin(b.picks[id]))
    && KeysAhead(b, gen)
  }

  /** The keys the board will hand out next are not in its table. */
  ghost predicate KeysAhead(b: Board, gen: nat -> Uuid)
  {
    forall k :: b.created <= k ==> gen(k) !in b.picks
  }

  lemma UpsertKeysAhead(b: Board, e: PicksEntry, origin: Uuid, round: int, n: nat, gen: nat -> Uuid)
    requires b.Running? && KeysAhead(b, gen) && Unrepeating(gen)
    ensures KeysAhead(Upsert(b, e, origin, round, n, gen), gen)
  {
    var after := Upsert(b, e, origin, round, n, gen);
    if |KeyMatches(b.picks, NaturalKey(origin, e.year, round))| == 0 {
      forall k | after.created <= k
        ensures gen(k) !in after.picks
      {
        assert gen(k) != gen(b.created);
      }
    }
  }

  lemma UpsertEvolves(before: map<Uuid, Pick>, b: Board, e: PicksEntry, origin: Uuid, round: int, n: nat, gen: nat -> Uuid)
    requires b.Running? && Evolves(before, b, gen) && FreshSupply(gen, before.Keys)
    ensures Evolves(before, Upsert(b, e, origin, round, n, gen), gen)
  {
    UpsertKeysAhead(b, e, origin, round, n, gen);
  }

  lemma {:induction false} RoundsEvolve(before: map<Uuid, Pick>, b: Board, e: PicksEntry, origin: Uuid, r: nat, n: nat, gen: nat -> Uuid)
    requires b.Running? && Evolves(before, b, gen) && FreshSupply(gen, before.Keys)
    ensures Evolves(before, Rounds(b, e, origin, r, n, gen), gen)
  {
    if r > 0 {
      RoundsEvolve(before, b, e, origin, r - 1, n, gen);
      UpsertEvolves(before, Rounds(b, e, origin, r - 1, n, gen), e, origin, r, n, gen);
    }
  }

  lemma {:induction false} EntriesEvolve(before: map<Uuid, Pick>, b: Board, es: seq<PicksEntry>, rounds: nat, n: nat, gen: nat -> Uuid)
    requires b.Running? && Evolves(before, b, gen) && FreshSupply(gen, before.Keys)
    ensures Evolves(before, Entries(b, es, rounds, n, gen), gen)
  {
    if es != [] {
      EntriesEvolve(before, b, es[..|es| - 1], rounds, n, gen);
      var prev := Entries(b, es[..|es| - 1], rounds, n, gen);
      var e := es[|es| - 1];
      if prev.Running? && !e.franchiseId.Malformed? {
        RoundsEvolve(before, prev, e, e.franchiseId.id, rounds, n, gen);
      }
    }
  }

  /** Whatever the board does, including when it stops early: every pick
      that existed keeps its year, round, owner, last owner, origin and
      prospect, and every pick it adds belongs wholly to its origin and
      holds no prospect. */
  lemma BoardKeepsOwnership(leagues: map<Uuid, League>, n: nat, picks: map<Uuid, Pick>, req: PicksRequest, gen: nat -> Uuid)
    requires FreshSupply(gen, picks.Keys)
    ensures var after := PicksAfter(CreateOrUpdate(leagues, n, picks, req, gen), picks);
      && (forall id :: id in picks ==> id in after && Kept(picks[id], after[id]))
      && (forall id :: id in after && id !in picks ==> OwnedByOrigin(after[id]))
  {
    var o := CreateOrUpdate(leagues, n, picks, req, gen);
    if o.Ran? {
      EntriesEvolve(picks, Running(picks, 0, []), req.picks,
                    RoundCount(leagues[req.leagueId.id].draftRounds), n, gen);
    }
  }

  /** The board never breaks the pick/prospect link invariant. */
  lemma BoardKeepsConsistency(leagues: map<Uuid, League>, n: nat, picks: map<Uuid, Pick>,
                              prospects: map<Uuid, Prospect>, req: PicksRequest, gen: nat -> Uuid)
    requires FreshSupply(gen, picks.Keys) && Consistent(picks, prospects)
    ensures Consistent(PicksAfter(CreateOrUpdate(leagues, n, picks, req, gen), picks), prospects)
  {
    var after := PicksAfter(CreateOrUpdate(leagues, n, picks, req, gen), picks);
    BoardKeepsOwnership(leagues, n, picks, req, gen);
    forall p | p in after && after[p].prospect.Some?
      ensures after[p].prospect.value in prospects && prospects[after[p].prospect.value].pick == Some(p)
    {
      assert p in picks;
    }
  }

  // ---- Natural keys stay unique ----

  function KeyOf(p: Pick): NaturalKey
  {
    NaturalKey(p.origin, p.draftYear, p.draftRound)
  }

  /** No two picks share origin, year and round. */
  ghost predicate UniqueKeys(picks: map<Uuid, Pick>)
  {
    forall a, b :: a in picks && b in picks && HasKey(picks[b], KeyOf(picks[a])) ==> a == b
  }

  lemma AtMostOneMatch(picks: map<Uuid, Pick>, key: NaturalKey)
    requires UniqueKeys(picks)
    ensures |KeyMatches(picks, key)| <= 1
  {
    var found := KeyMatches(picks, key);
    if found != {} {
      var a :| a in found;
      forall b | b in found
        ensures b == a
      {
        assert KeyOf(picks[a]) == key;
      }
      assert found == {a};
    }
  }

  lemma UnclaimedKey(picks: map<Uuid, Pick>, key: NaturalKey, id: Uuid)
    requires |KeyMatches(picks, key)| == 0 && id in picks
    ensures !HasKey(picks[id], key)
  {
    assert id !in KeyMatches(picks, key);
  }

  lemma UpsertKeepsKeysUnique(b: Board, e: PicksEntry, origin: Uuid, round: int, n: nat, gen: nat -> Uuid)
    requires b.Running? && UniqueKeys(b.picks) && KeysAhead(b, gen) && Unrepeating(gen)
    ensures var after := Upsert(b, e, origin, round, n, gen);
      after.Running? && UniqueKeys(after.picks) && KeysAhead(after, gen)
  {
    var key := NaturalKey(origin, e.year, round);
    var after := Upsert(b, e, origin, round, n, gen);
    AtMostOneMatch(b.picks, key);
    UpsertKeysAhead(b, e, origin, round, n, gen);
    if |KeyMatches(b.picks, key)| == 0 {
      var g := gen(b.created);
      forall x, y | x in after.picks && y in after.picks && HasKey(after.picks[y], KeyOf(after.picks[x]))
        ensures x == y
      {
        if x != g && y != g {
          assert HasKey(b.picks[y], KeyOf(b.picks[x]));
        } else if x != y {
          // one of them is the new pick, whose key nobody else held
          UnclaimedKey(b.picks, key, if x == g then y else x);
          assert false;
        }
      }
    } else {
      forall id | id in b.picks
        ensures KeyOf(after.picks[id]) == KeyOf(b.picks[id])
      {
      }
    }
  }

  /** With unique keys, every round of an entry runs to the end and keeps
      the keys unique. */
  lemma {:induction false} RoundsKeepKeysUnique(b: Board, e: PicksEntry, origin: Uuid, r: nat, n: nat, gen: nat -> Uuid)
    requires b.Running? && UniqueKeys(b.picks) && KeysAhead(b, gen) && Unrepeating(gen)
    ensures var after := Rounds(b, e, origin, r, n, gen);
      after.Running? && UniqueKeys(after.picks) && KeysAhead(after, gen)
  {
    if r > 0 {
      RoundsKeepKeysUnique(b, e, origin, r - 1, n, gen);
      UpsertKeepsKeysUnique(Rounds(b, e, origin, r - 1, n, gen), e, origin, r, n, gen);
    }
  }

  lemma {:induction false} EntriesKeepKeysUnique(b: Board, es: seq<PicksEntry>, rounds: nat, n: nat, gen: nat -> Uuid)
    requires b.Running? && UniqueKeys(b.picks) && KeysAhead(b, gen) && Unrepeating(gen)
    ensures var after := Entries(b, es, rounds, n, gen);
      && UniqueKeys(after.picks) && KeysAhead(after, gen)
  {
    if es != [] {
      EntriesKeepKeysUnique(b, es[..|es| - 1], rounds, n, gen);
      var prev := Entries(b, es[..|es| - 1], rounds, n, gen);
      var e := es[|es| - 1];
      if prev.Running? && !e.franchiseId.Malformed? {
        RoundsKeepKeysUnique(prev, e, e.franchiseId.id, rounds, n, gen);
      }
    }
  }

  /** A table whose natural keys are unique keeps them unique through the
      board. */
  lemma BoardKeepsKeysUnique(leagues: map<Uuid, League>, n: nat, picks: map<Uuid, Pick>, req: PicksRequest, gen: nat -> Uuid)
    requires UniqueKeys(picks) && FreshSupply(gen, picks.Keys)
    ensures UniqueKeys(PicksAfter(CreateOrUpdate(leagues, n, picks, req, gen), picks))
  {
    var o := CreateOrUpdate(leagues, n, picks, req, gen);
    if o.Ran? {
      EntriesKeepKeysUnique(Running(picks, 0, []), req.picks,
                            RoundCount(leagues[req.leagueId.id].draftRounds), n, gen);
    }
  }

  /** Whatever the table holds, the board answers 201 exactly when the
      league is found and every entry's id parses, 409 for a missing
      league, and otherwise panics: the "Multiple picks" 403 is never
      given. */
  lemma NeverMultiplePicks(leagues: map<Uuid, League>, n: nat, picks: map<Uuid, Pick>, req: PicksRequest, gen: nat -> Uuid)
    ensures var a := Answer(CreateOrUpdate(leagues, n, picks, req, gen), req);
      && (a.Answered? ==> a.response.status in {StatusCreated, StatusConflict})
      && (a == Answered(DefaultResponse(StatusCreated, "", "")) <==>
            && !req.leagueId.Malformed? && req.leagueId.id in leagues && leagues[req.leagueId.id].name == LeagueName
            && forall i :: 0 <= i < |req.picks| ==> !req.picks[i].franchiseId.Malformed?)
  {
    if !req.leagueId.Malformed? && req.leagueId.id in leagues && leagues[req.leagueId.id].name == LeagueName {
      EntriesStop(Running(picks, 0, []), req.picks, RoundCount(leagues[req.leagueId.id].draftRounds), n, gen);
    }
  }

  /** The outer loop stops exactly when some entry's id does not parse. */
  lemma {:induction false} EntriesStop(b: Board, es: seq<PicksEntry>, rounds: nat, n: nat, gen: nat -> Uuid)
    requires b.Running?
    ensures Entries(b, es, rounds, n, gen).Halted? <==> exists i :: 0 <= i < |es| && es[i].franchiseId.Malformed?
  {
    if es != [] {
      var front := es[..|es| - 1];
      EntriesStop(b, front, rounds, n, gen);
      if exists i :: 0 <= i < |front| && front[i].franchiseId.Malformed? {
        var i :| 0 <= i < |front| && front[i].franchiseId.Malformed?;
        assert es[i] == front[i];
      } else if exists i :: 0 <= i < |es| && es[i].franchiseId.Malformed? {
        var i :| 0 <= i < |es| && es[i].franchiseId.Malformed?;
        if i < |front| {
          assert front[i] == es[i];
        }
      }
    }
  }

  /** A key held by several picks stays held by all of them: the upsert
      writes the one row `Find` read and leaves every other row as it was,
      so the duplicates keep their stale positions. */
  lemma DuplicateKeySurvives(b: Board, e: PicksEntry, origin: Uuid, round: int, n: nat, gen: nat -> Uuid)
    requires b.Running?
    requires |KeyMatches(b.picks, NaturalKey(origin, e.year, round))| >= 2
    ensures var after := Upsert(b, e, origin, round, n, gen);
      var found := KeyMatches(b.picks, NaturalKey(origin, e.year, round));
      && after.picks.Keys == b.picks.Keys && after.created == b.created
      && KeyMatches(after.picks, NaturalKey(origin, e.year, round)) == found
      && exists w :: w in found && forall id :: id in b.picks && id != w ==> after.picks[id] == b.picks[id]
  {
    var key := NaturalKey(origin, e.year, round);
    var found := KeyMatches(b.picks, key);
    var after := Upsert(b, e, origin, round, n, gen);
    var w := FirstRow(found);
    assert after.picks == b.picks[w := Reposition(b.picks[w], e, round, n)];
    assert KeyMatches(after.picks, key) == found;
  }

  // ---- One lookup per entry and round ----

  /** The keys of rounds 1..r of one franchise and year, in order. */
  function RoundKeys(origin: Uuid, year: int, r: nat): (keys: seq<NaturalKey>)
    ensures |keys| == r
    ensures forall i :: 0 <= i < r ==> keys[i] == NaturalKey(origin, year, i + 1)
  {
    if r == 0 then [] else RoundKeys(origin, year, r - 1) + [NaturalKey(origin, year, r)]
  }

  /** The keys of every entry whose id parses, entry after entry. */
  function EntryKeys(es: seq<PicksEntry>, rounds: nat): seq<NaturalKey>
  {
    if es == [] then []
    else
      var e := es[|es| - 1];
      EntryKeys(es[..|es| - 1], rounds) + (if e.franchiseId.Malformed? then [] else RoundKeys(e.franchiseId.id, e.year, rounds))
  }

  lemma {:induction false} RoundsLookups(b: Board, e: PicksEntry, origin: Uuid, r: nat, n: nat, gen: nat -> Uuid)
    requires b.Running?
    requires Rounds(b, e, origin, r, n, gen).Running?
    ensures Rounds(b, e, origin, r, n, gen).lookups == b.lookups + RoundKeys(origin, e.year, r)
  {
    if r > 0 {
      var prev := Rounds(b, e, origin, r - 1, n, gen);
      RoundsLookups(b, e, origin, r - 1, n, gen);
      assert b.lookups + RoundKeys(origin, e.year, r) == b.lookups + RoundKeys(origin, e.year, r - 1) + [NaturalKey(origin, e.year, r)];
    }
  }

  lemma {:induction false} EntriesLookups(b: Board, es: seq<PicksEntry>, rounds: nat, n: nat, gen: nat -> Uuid)
    requires b.Running?
    requires Entries(b, es, rounds, n, gen).Running?
    ensures Entries(b, es, rounds, n, gen).lookups == b.lookups + EntryKeys(es, rounds)
  {
    if es != [] {
      var prev := Entries(b, es[..|es| - 1], rounds, n, gen);
      var e := es[|es| - 1];
      EntriesLookups(b, es[..|es| - 1], rounds, n, gen);
      RoundsLookups(prev, e, e.franchiseId.id, rounds, n, gen);
    }
  }

  /** A board that runs to the end looks up each key once, for every entry
      and every round 1..DraftRounds, entry after entry and round after
      round. */
  lemma BoardLookups(leagues: map<Uuid, League>, n: nat, picks: map<Uuid, Pick>, req: PicksRequest, gen: nat -> Uuid)
    requires CreateOrUpdate(leagues, n, picks, req, gen).Ran?
    requires CreateOrUpdate(leagues, n, picks, req, gen).board.Running?
    ensures CreateOrUpdate(leagues, n, picks, req, gen).board.lookups
      == EntryKeys(req.picks, RoundCount(leagues[req.leagueId.id].draftRounds))
  {
    EntriesLookups(Running(picks, 0, []), req.picks, RoundCount(leagues[req.leagueId.id].draftRounds), n, gen);
  }

  // ---- Re-running the same request ----

  /** Exactly one pick holds `key`, and it carries the positions a lottery
      position of `lottery` gives it. */
  ghost predicate Shows(picks: map<Uuid, Pick>, key: NaturalKey, lottery: int, n: nat)
  {
    && |KeyMatches(picks, key)| == 1
    && forall id :: id in KeyMatches(picks, key) ==>
         picks[id].pickInRound == InRound(lottery) && picks[id].pickOverall == Overall(lottery, key.round, n)
  }

  /** Every entry's id parses and no two entries name the same franchise
      for the same year. */
  predicate DistinctEntries(es: seq<PicksEntry>)
  {
    && (forall i :: 0 <= i < |es| ==> !es[i].franchiseId.Malformed?)
    && (forall i, j :: 0 <= i < j < |es| ==>
          es[i].franchiseId.id != es[j].franchiseId.id || es[i].year != es[j].year)
  }

  lemma SingletonIs<T>(s: set<T>, a: T)
    requires |s| == 1 && a in s
    ensures s == {a}
  {
    assert |s - {a}| == 0;
  }

  lemma UpsertShows(b: Board, e: PicksEntry, origin: Uuid, round: int, n: nat, gen: nat -> Uuid)
    requires b.Running? && UniqueKeys(b.picks) && KeysAhead(b, gen)
    ensures Shows(Upsert(b, e, origin, round, n, gen).picks, NaturalKey(origin, e.year, round), e.lotteryPosition, n)
  {
    var key := NaturalKey(origin, e.year, round);
    var after := Upsert(b, e, origin, round, n, gen);
    var found := KeyMatches(b.picks, key);
    AtMostOneMatch(b.picks, key);
    if |found| == 0 {
      var g := gen(b.created);
      assert KeyMatches(after.picks, key) == {g} by {
        forall id | id in after.picks && id != g
          ensures !HasKey(after.picks[id], key)
        {
          assert id !in found;
        }
      }
    } else {
      var id := FirstRow(found);
      SingletonIs(found, id);
      assert KeyMatches(after.picks, key) == {id};
    }
  }

  /** An upsert under another key leaves what a key shows alone. */
  lemma UpsertKeepsShows(b: Board, e: PicksEntry, origin: Uuid, round: int, n: nat, gen: nat -> Uuid,
                         key: NaturalKey, lottery: int)
    requires b.Running? && KeysAhead(b, gen)
    requires key != NaturalKey(origin, e.year, round)
    requires Shows(b.picks, key, lottery, n)
    ensures Shows(Upsert(b, e, origin, round, n, gen).picks, key, lottery, n)
  {
    var after := Upsert(b, e, origin, round, n, gen);
    var other := NaturalKey(origin, e.year, round);
    var found := KeyMatches(b.picks, other);
    if |found| == 0 {
      var g := gen(b.created);
      assert KeyMatches(after.picks, key) == KeyMatches(b.picks, key);
    } else {
      forall id | id in b.picks
        ensures KeyOf(after.picks[id]) == KeyOf(b.picks[id])
      {
      }
      assert KeyMatches(after.picks, key) == KeyMatches(b.picks, key);
      forall id | id in KeyMatches(b.picks, key)
        ensures after.picks[id] == b.picks[id]
      {
        assert id !in found;
      }
    }
  }

  lemma {:induction false} RoundsKeepShows(b: Board, e: PicksEntry, origin: Uuid, r: nat, n: nat, gen: nat -> Uuid,
                                           key: NaturalKey, lottery: int)
    requires b.Running? && UniqueKeys(b.picks) && KeysAhead(b, gen) && Unrepeating(gen)
    requires key.origin != origin || key.year != e.year
    requires Shows(b.picks, key, lottery, n)
    ensures Shows(Rounds(b, e, origin, r, n, gen).picks, key, lottery, n)
  {
    if r > 0 {
      RoundsKeepShows(b, e, origin, r - 1, n, gen, key, lottery);
      RoundsKeepKeysUnique(b, e, origin, r - 1, n, gen);
      UpsertKeepsShows(Rounds(b, e, origin, r - 1, n, gen), e, origin, r, n, gen, key, lottery);
    }
  }

  /** After rounds 1..r of an entry, each of those rounds shows the
      entry's positions. */
  lemma {:induction false} RoundShows(b: Board, e: PicksEntry, origin: Uuid, r: nat, q: nat, n: nat, gen: nat -> Uuid)
    requires b.Running? && UniqueKeys(b.picks) && KeysAhead(b, gen) && Unrepeating(gen)
    requires 1 <= q <= r
    ensures Shows(Rounds(b, e, origin, r, n, gen).picks, NaturalKey(origin, e.year, q), e.lotteryPosition, n)
  {
    var prev := Rounds(b, e, origin, r - 1, n, gen);
    RoundsKeepKeysUnique(b, e, origin, r - 1, n, gen);
    assert Rounds(b, e, origin, r, n, gen) == Upsert(prev, e, origin, r, n, gen);
    if q == r {
      UpsertShows(prev, e, origin, r, n, gen);
    } else {
      RoundShows(b, e, origin, r - 1, q, n, gen);
      UpsertKeepsShows(prev, e, origin, r, n, gen, NaturalKey(origin, e.year, q), e.lotteryPosition);
    }
  }

  /** After a board over distinct entries, the table holds exactly one
      pick per entry and round, with the positions that entry's lottery
      position gives: none before the lottery, otherwise its lottery
      position in the round and `lottery + (round-1)*n` overall. */
  lemma {:induction false} EntriesSettle(b: Board, es: seq<PicksEntry>, rounds: nat, n: nat, gen: nat -> Uuid)
    requires b.Running? && UniqueKeys(b.picks) && KeysAhead(b, gen) && Unrepeating(gen)
    requires DistinctEntries(es)
    ensures var after := Entries(b, es, rounds, n, gen);
      && after.Running?
      && forall i, q :: 0 <= i < |es| && 1 <= q <= rounds ==>
           Shows(after.picks, NaturalKey(es[i].franchiseId.id, es[i].year, q), es[i].lotteryPosition, n)
  {
    if es != [] {
      var front := es[..|es| - 1];
      var e := es[|es| - 1];
      assert DistinctEntries(front);
      EntriesSettle(b, front, rounds, n, gen);
      EntriesKeepKeysUnique(b, front, rounds, n, gen);
      var prev := Entries(b, front, rounds, n, gen);
      var after := Rounds(prev, e, e.franchiseId.id, rounds, n, gen);
      forall q | 1 <= q <= rounds
        ensures Shows(after.picks, NaturalKey(e.franchiseId.id, e.year, q), e.lotteryPosition, n)
      {
        RoundShows(prev, e, e.franchiseId.id, rounds, q, n, gen);
      }
      forall i, q | 0 <= i < |es| - 1 && 1 <= q <= rounds
        ensures Shows(after.picks, NaturalKey(es[i].franchiseId.id, es[i].year, q), es[i].lotteryPosition, n)
      {
        assert front[i] == es[i];
        RoundsKeepShows(prev, e, e.franchiseId.id, rounds, n, gen,
                        NaturalKey(es[i].franchiseId.id, es[i].year, q), es[i].lotteryPosition);
      }
      RoundsKeepKeysUnique(prev, e, e.franchiseId.id, rounds, n, gen);
    }
  }

  lemma UpsertWhenShown(b: Board, e: PicksEntry, origin: Uuid, round: int, n: nat, gen: nat -> Uuid)
    requires b.Running?
    requires Shows(b.picks, NaturalKey(origin, e.year, round), e.lotteryPosition, n)
    ensures var after := Upsert(b, e, origin, round, n, gen);
      after.Running? && after.picks == b.picks && after.created == b.created
  {
  }

  lemma {:induction false} RoundsWhenShown(b: Board, e: PicksEntry, origin: Uuid, r: nat, n: nat, gen: nat -> Uuid)
    requires b.Running?
    requires forall q :: 1 <= q <= r ==> Shows(b.picks, NaturalKey(origin, e.year, q), e.lotteryPosition, n)
    ensures var after := Rounds(b, e, origin, r, n, gen);
      after.Running? && after.picks == b.picks && after.created == b.created
  {
    if r > 0 {
      RoundsWhenShown(b, e, origin, r - 1, n, gen);
      UpsertWhenShown(Rounds(b, e, origin, r - 1, n, gen), e, origin, r, n, gen);
    }
  }

  lemma {:induction false} EntriesWhenShown(b: Board, es: seq<PicksEntry>, rounds: nat, n: nat, gen: nat -> Uuid)
    requires b.Running?
    requires forall i :: 0 <= i < |es| ==> !es[i].franchiseId.Malformed?
    requires forall i, q :: 0 <= i < |es| && 1 <= q <= rounds ==>
      Shows(b.picks, NaturalKey(es[i].franchiseId.id, es[i].year, q), es[i].lotteryPosition, n)
    ensures var after := Entries(b, es, rounds, n, gen);
      after.Running? && after.picks == b.picks && after.created == b.created
  {
    if es != [] {
      var front := es[..|es| - 1];
      var e := es[|es| - 1];
      EntriesWhenShown(b, front, rounds, n, gen);
      var prev := Entries(b, front, rounds, n, gen);
      RoundsWhenShown(prev, e, e.franchiseId.id, rounds, n, gen);
    }
  }

  /** Sending the same lottery results twice: the second run finds every
      pick the first one wrote, rewrites it with the positions it already
      has, and leaves the table exactly as the first run left it. */
  lemma RerunChangesNothing(leagues: map<Uuid, League>, n: nat, picks: map<Uuid, Pick>,
                            req: PicksRequest, gen: nat -> Uuid, gen2: nat -> Uuid)
    requires UniqueKeys(picks) && FreshSupply(gen, picks.Keys) && DistinctEntries(req.picks)
    ensures var first := PicksAfter(CreateOrUpdate(leagues, n, picks, req, gen), picks);
      var again := CreateOrUpdate(leagues, n, first, req, gen2);
      && Answer(again, req) == Answer(CreateOrUpdate(leagues, n, picks, req, gen), req)
      && PicksAfter(again, first) == first
  {
    var o := CreateOrUpdate(leagues, n, picks, req, gen);
    if o.Ran? {
      var rounds := RoundCount(leagues[req.leagueId.id].draftRounds);
      EntriesSettle(Running(picks, 0, []), req.picks, rounds, n, gen);
      EntriesWhenShown(Running(o.board.picks, 0, []), req.picks, rounds, n, gen2);
    }
  }

  // ---- The two listings ----

  /** pb.Pick: every field as text; a missing prospect or position is "". */
  datatype PickView = PickView(
    id: string,
    draftYear: string,
    draftRound: string,
    draftPickInRound: string,
    draftPickOverall: string,
    prospectId: string,
    ownerId: string,
    ownerName: string,
    lastOwnerId: string,
    lastOwnerName: string,
    originId: string,
    originName: string)

  datatype GetPicksResponse = GetPicksResponse(status: int, error: string, picks: seq<PickView>)


  function View(id: Uuid, p: Pick): PickView
  {
    PickView(UuidText(id), DecimalString(p.draftYear), DecimalString(p.draftRound),
             NumberOrEmpty(p.pickInRound), NumberOrEmpty(p.pickOverall),
             if p.prospect.None? then "" else UuidText(p.prospect.value),
             UuidText(p.owner), p.ownerName, UuidText(p.lastOwner), p.lastOwnerName,
             UuidText(p.origin), p.originName)
  }

  /** The views of the picks named by `order`, in that order. */
  function Project(picks: map<Uuid, Pick>, order: seq<Uuid>): (views: seq<PickView>)
    requires forall i :: 0 <= i < |order| ==> order[i] in picks
  {
    seq(|order|, i requires 0 <= i < |order| => View(order[i], picks[order[i]]))
  }

  /** The loop that turns the rows found into the response list. */
  method ListPicks(picks: map<Uuid, Pick>, selected: set<Uuid>) returns (views: seq<PickView>, ghost order: seq<Uuid>)
    requires selected <= picks.Keys
    ensures Enumerates(order, selected)
    ensures views == Project(picks, order)
  {
    views, order := [], [];
    var rest := selected;
    while rest != {}
      invariant rest <= selected
      invariant forall i :: 0 <= i < |order| ==> order[i] in selected - rest
      invariant forall x :: x in selected - rest ==> x in order
      invariant forall i, j :: 0 <= i < j < |order| ==> order[i] != order[j]
      invariant views == Project(picks, order)
      decreases |rest|
    {
      var id :| id in rest;
      views := views + [View(id, picks[id])];
      order := order + [id];
      rest := rest - {id};
    }
  }

  function YearSelection(picks: map<Uuid, Pick>, year: int): set<Uuid>
  {
    set id | id in picks && picks[id].draftYear == year
  }

  function OwnerSelection(picks: map<Uuid, Pick>, owner: Uuid): set<Uuid>
  {
    set id | id in picks && picks[id].owner == owner
  }

  /** GetPicksByYear: every pick of the year, once each. */
  method GetPicksByYear(repo: Repository, year: int) returns (resp: GetPicksResponse, ghost order: seq<Uuid>)
    ensures resp.status == StatusOK && resp.error == ""
    ensures Enumerates(order, YearSelection(repo.picks, year))
    ensures resp.picks == Project(repo.picks, order)
  {
    var views;
    views, order := ListPicks(repo.picks, YearSelection(repo.picks, year));
    resp := GetPicksResponse(StatusOK, "", views);
  }

  /** GetPicksByFranchise: every pick the franchise owns now, once each;
      picks it gave away are not listed, picks it received are. */
  method GetPicksByFranchise(repo: Repository, franchiseId: RawId) returns (resp: GetPicksResponse, ghost order: seq<Uuid>)
    ensures franchiseId.Malformed? ==> resp == GetPicksResponse(StatusForbidden, FranchiseIdError(franchiseId), [])
    ensures !franchiseId.Malformed? ==>
      && resp.status == StatusOK && resp.error == ""
      && Enumerates(order, OwnerSelection(repo.picks, franchiseId.id))
      && resp.picks == Project(repo.picks, order)
  {
    var fId := franchiseId.Parse();
    if fId.None? {
      return GetPicksResponse(StatusForbidden, FranchiseIdError(franchiseId), []), [];
    }
    var views;
    views, order := ListPicks(repo.picks, OwnerSelection(repo.picks, fId.value));
    resp := GetPicksResponse(StatusOK, "", views);
  }
}
