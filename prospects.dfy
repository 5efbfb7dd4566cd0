/** Loading prospects in bulk and listing a franchise's prospects
    (service/prospects.go). The draft and undraft handlers in that file are
    the ones of module Draft. */
module Prospects {
  import opened Base
  import opened Records
  import opened Store

  /** One entry of pb.CreateProspectsBulkRequest. */
  datatype ProspectEntry = ProspectEntry(
    fullName: string,
    firstName: string,
    lastName: string,
    nhlTeam: string,
    birthdate: string,
    height: string,
    weight: string,
    draftYear: string,
    nhlDraftRound: string,
    nhlDraftPickInRound: string,
    nhlDraftPickOverall: string,
    positionCode: string)

  datatype BulkResponse = BulkResponse(status: int, error: string, prospectIds: seq<string>)

  /** The dedupe query: full name, birthdate, NHL draft year and NHL overall
      pick, each left out of the query when the entry's value is empty. */
  predicate SameProspect(e: ProspectEntry, x: Prospect)
  {
    && FieldMatches(e.fullName, x.fullName)
    && FieldMatches(e.birthdate, x.birthdate)
    && FieldMatches(e.draftYear, x.nhlDraftYear)
    && FieldMatches(e.nhlDraftPickOverall, x.nhlDraftPickOverall)
  }

  predicate AlreadyStored(prospects: map<Uuid, Prospect>, e: ProspectEntry)
  {
    exists id :: id in prospects && SameProspect(e, prospects[id])
  }

  /** The row built for an entry: the request's fields (its draft year as
      the NHL draft year), protected by the column default, and not on any
      roster. */
  function NewProspect(e: ProspectEntry): Prospect
  {
    Prospect(e.fullName, e.firstName, e.lastName, e.nhlTeam, e.birthdate, e.height, e.weight,
             e.draftYear, e.nhlDraftRound, e.nhlDraftPickOverall, e.nhlDraftPickInRound, e.positionCode,
             true, None, None, None)
  }

  /** The rows queued for the batch insert: every entry the store does not
      hold yet, in request order. Entries are checked against the store
      only, never against each other. */
  function Queue(stored: map<Uuid, Prospect>, es: seq<ProspectEntry>): seq<Prospect>
  {
    if es == [] then []
    else
      var e := es[|es| - 1];
      Queue(stored, es[..|es| - 1]) + (if AlreadyStored(stored, e) then [] else [NewProspect(e)])
  }

  /** The batch insert: the k-th queued row gets the key `gen(k)`. */
  function InsertAll(prospects: map<Uuid, Prospect>, queue: seq<Prospect>, gen: nat -> Uuid): map<Uuid, Prospect>
  {
    if queue == [] then prospects
    else InsertAll(prospects, queue[..|queue| - 1], gen)[gen(|queue| - 1) := queue[|queue| - 1]]
  }

  /** The CreateProspectsBulk RPC. */
  method CreateProspectsBulk(repo: Repository, entries: seq<ProspectEntry>, gen: nat -> Uuid) returns (resp: BulkResponse)
    modifies repo
    ensures repo.prospects == InsertAll(old(repo.prospects), Queue(old(repo.prospects), entries), gen)
    ensures resp == BulkResponse(StatusCreated, "", [])
    ensures repo.leagues == old(repo.leagues) && repo.franchises == old(repo.franchises)
    ensures repo.picks == old(repo.picks)
  {
    var queue: seq<Prospect> := [];
    for i := 0 to |entries|
      invariant queue == Queue(repo.prospects, entries[..i])
    {
      var e := entries[i];
      assert entries[..i + 1][..i] == entries[..i];
      if !AlreadyStored(repo.prospects, e) {
        queue := queue + [NewProspect(e)];
      }
    }
    assert entries[..|entries|] == entries;
    if |queue| > 0 {
      repo.prospects := InsertAll(repo.prospects, queue, gen);
    }
    resp := BulkResponse(StatusCreated, "", []);
  }

  /** An entry is queued once for every time it occurs in the request when
      the store holds nothing like it, and never otherwise; nothing else is
      queued. */
  lemma {:induction false} QueueCounts(stored: map<Uuid, Prospect>, es: seq<ProspectEntry>, e: ProspectEntry)
    ensures multiset(Queue(stored, es))[NewProspect(e)] == if AlreadyStored(stored, e) then 0 else multiset(es)[e]
  {
    if es != [] {
      var front, last := es[..|es| - 1], es[|es| - 1];
      assert es == front + [last];
      QueueCounts(stored, front, e);
      if NewProspect(last) == NewProspect(e) {
        assert last == e;
      }
    }
  }

  /** Every queued row is the row of some entry the store does not hold. */
  lemma {:induction false} QueuedComesFromEntry(stored: map<Uuid, Prospect>, es: seq<ProspectEntry>, x: Prospect)
    requires x in Queue(stored, es)
    ensures exists i :: 0 <= i < |es| && !AlreadyStored(stored, es[i]) && x == NewProspect(es[i])
  {
    var front, last := es[..|es| - 1], es[|es| - 1];
    if x in Queue(stored, front) {
      QueuedComesFromEntry(stored, front, x);
      var i :| 0 <= i < |front| && !AlreadyStored(stored, front[i]) && x == NewProspect(front[i]);
      assert es[i] == front[i];
    } else {
      assert x == NewProspect(last);
    }
  }

  /** The keys `gen` hands out for a batch of `count` rows. */
  ghost function BatchKeys(gen: nat -> Uuid, count: nat): set<Uuid>
  {
    set k | 0 <= k < count :: gen(k)
  }

  /** The batch insert keeps every stored row and adds exactly the queued
      ones, the k-th under `gen(k)`. */
  lemma {:induction false} InsertAllAdds(prospects: map<Uuid, Prospect>, queue: seq<Prospect>, gen: nat -> Uuid)
    requires FreshSupply(gen, prospects.Keys)
    ensures var after := InsertAll(prospects, queue, gen);
      && after.Keys == prospects.Keys + BatchKeys(gen, |queue|)
      && (forall id :: id in prospects ==> after[id] == prospects[id])
      && (forall k :: 0 <= k < |queue| ==> after[gen(k)] == queue[k])
  {
    if queue != [] {
      var front := queue[..|queue| - 1];
      InsertAllAdds(prospects, front, gen);
      assert BatchKeys(gen, |queue|) == BatchKeys(gen, |front|) + {gen(|front|)};
      forall k | 0 <= k < |front|
        ensures gen(k) != gen(|front|)
      {
      }
    }
  }

  /** Loading prospects keeps the store consistent: the new rows are on no
      roster and hold no pick. */
  lemma BulkKeepsConsistency(picks: map<Uuid, Pick>, prospects: map<Uuid, Prospect>, es: seq<ProspectEntry>, gen: nat -> Uuid)
    requires Consistent(picks, prospects) && FreshSupply(gen, prospects.Keys)
    ensures Consistent(picks, InsertAll(prospects, Queue(prospects, es), gen))
  {
    var queue := Queue(prospects, es);
    var after := InsertAll(prospects, queue, gen);
    InsertAllAdds(prospects, queue, gen);
    forall x | x in after && x !in prospects
      ensures after[x].pick.None? && after[x].league.None? && after[x].franchise.None?
    {
      var k :| 0 <= k < |queue| && gen(k) == x;
      QueuedComesFromEntry(prospects, es, queue[k]);
    }
  }

  /** Sending the same batch again stores nothing more: every entry now
      matches the row the first call made for it, or the one that was
      already there. */
  lemma BulkRerunInsertsNothing(prospects: map<Uuid, Prospect>, es: seq<ProspectEntry>, gen: nat -> Uuid)
    requires FreshSupply(gen, prospects.Keys)
    ensures var after := InsertAll(prospects, Queue(prospects, es), gen);
      Queue(after, es) == []
  {
    var queue := Queue(prospects, es);
    var after := InsertAll(prospects, queue, gen);
    InsertAllAdds(prospects, queue, gen);
    forall i | 0 <= i < |es|
      ensures AlreadyStored(after, es[i])
    {
      var e := es[i];
      if AlreadyStored(prospects, e) {
        var id :| id in prospects && SameProspect(e, prospects[id]);
        assert after[id] == prospects[id];
      } else {
        assert e in multiset(es);
        QueueCounts(prospects, es, e);
        assert NewProspect(e) in queue;
        var k :| 0 <= k < |queue| && queue[k] == NewProspect(e);
        assert SameProspect(e, after[gen(k)]);
      }
    }
    NothingQueued(after, es);
  }

  lemma {:induction false} NothingQueued(stored: map<Uuid, Prospect>, es: seq<ProspectEntry>)
    requires forall i :: 0 <= i < |es| ==> AlreadyStored(stored, es[i])
    ensures Queue(stored, es) == []
  {
    if es != [] {
      NothingQueued(stored, es[..|es| - 1]);
    }
  }

  // ---- A franchise's prospects ----

  /** The pick fields of pb.Prospect's nested pick. */
  datatype PickSummary = PickSummary(id: string, draftYear: string, draftRound: string,
                                     draftPickInRound: string, draftPickOverall: string)

  /** pb.Prospect as this listing fills it. */
  datatype ProspectView = ProspectView(
    id: string,
    fullName: string,
    firstName: string,
    lastName: string,
    nhlTeam: string,
    franchiseId: string,
    pick: PickSummary,
    birthdate: string)

  datatype ProspectsResponse = ProspectsResponse(status: int, error: string, prospects: seq<ProspectView>)

  function FranchiseSelection(prospects: map<Uuid, Prospect>, franchise: Uuid): set<Uuid>
  {
    set id | id in prospects && prospects[id].franchise == Some(franchise)
  }

  /** The `Preload("Pick")` finds a pick row for the prospect. */
  predicate HasLoadedPick(picks: map<Uuid, Pick>, x: Prospect)
  {
    x.pick.Some? && x.pick.value in picks
  }


  function ProspectViewOf(picks: map<Uuid, Pick>, id: Uuid, x: Prospect): ProspectView
    requires HasLoadedPick(picks, x)
  {
    var p := picks[x.pick.value];
    ProspectView(UuidText(id), x.fullName, x.firstName, x.lastName, x.nhlTeam,
                 if x.franchise.None? then "" else UuidText(x.franchise.value),
                 PickSummary(UuidText(x.pick.value), DecimalString(p.draftYear), DecimalString(p.draftRound),
                             NumberOrEmpty(p.pickInRound), NumberOrEmpty(p.pickOverall)),
                 x.birthdate)
  }

  /** The views of the prospects named by `order`, in that order. */
  function ProjectProspects(picks: map<Uuid, Pick>, prospects: map<Uuid, Prospect>, order: seq<Uuid>): seq<ProspectView>
    requires forall i :: 0 <= i < |order| ==> order[i] in prospects && HasLoadedPick(picks, prospects[order[i]])
  {
    seq(|order|, i requires 0 <= i < |order| => ProspectViewOf(picks, order[i], prospects[order[i]]))
  }

  /** GetProspectsByFranchise. The nested pick's fields are read through
      the loaded pick without a nil check, so a selected prospect without a
      pick makes the handler panic. */
  method GetProspectsByFranchise(repo: Repository, franchiseId: RawId)
    returns (reply: Reply<ProspectsResponse>, ghost order: seq<Uuid>)
    ensures franchiseId.Malformed? ==> reply == Answered(ProspectsResponse(StatusForbidden, FranchiseIdError(franchiseId), []))
    ensures !franchiseId.Malformed? ==>
      var selected := FranchiseSelection(repo.prospects, franchiseId.id);
      && (reply.Answered? <==> forall id :: id in selected ==> HasLoadedPick(repo.picks, repo.prospects[id]))
      && (reply.Panicked? ==> reply.cause.NilPick? && reply.cause.prospect in selected
                              && !HasLoadedPick(repo.picks, repo.prospects[reply.cause.prospect]))
      && (reply.Answered? ==>
            && Enumerates(order, selected)
            && reply.response == ProspectsResponse(StatusOK, "", ProjectProspects(repo.picks, repo.prospects, order)))
  {
    order := [];
    var fId := franchiseId.Parse();
    if fId.None? {
      return Answered(ProspectsResponse(StatusForbidden, FranchiseIdError(franchiseId), [])), [];
    }
    var selected := FranchiseSelection(repo.prospects, fId.value);
    var views: seq<ProspectView> := [];
    var rest := selected;
    while rest != {}
      invariant Collected(repo.picks, repo.prospects, selected, rest, order, views)
      decreases |rest|
    {
      var id :| id in rest;
      var x := repo.prospects[id];
      if !HasLoadedPick(repo.picks, x) {
        return Panicked(NilPick(id)), order;
      }
      CollectedStep(repo.picks, repo.prospects, selected, rest, order, views, id);
      views := views + [ProspectViewOf(repo.picks, id, x)];
      order := order + [id];
      rest := rest - {id};
    }
    assert selected - rest == selected;
    reply := Answered(ProspectsResponse(StatusOK, "", views));
  }

  /** The listing loop once the prospects outside `rest` are done: each has
      a pick, `order` lists them, and `views` shows them in that order. */
  ghost predicate Collected(picks: map<Uuid, Pick>, prospects: map<Uuid, Prospect>, selected: set<Uuid>,
                        rest: set<Uuid>, order: seq<Uuid>, views: seq<ProspectView>)
  {
    && selected <= prospects.Keys
    && rest <= selected
    && Enumerates(order, selected - rest)
    && (forall x :: x in selected - rest ==> HasLoadedPick(picks, prospects[x]))
    && views == ProjectProspects(picks, prospects, order)
  }

  lemma CollectedStep(picks: map<Uuid, Pick>, prospects: map<Uuid, Prospect>, selected: set<Uuid>,
                   rest: set<Uuid>, order: seq<Uuid>, views: seq<ProspectView>, id: Uuid)
    requires Collected(picks, prospects, selected, rest, order, views)
    requires id in rest && HasLoadedPick(picks, prospects[id])
    ensures Collected(picks, prospects, selected, rest - {id}, order + [id],
                   views + [ProspectViewOf(picks, id, prospects[id])])
  {
    EnumerationStep(order, selected - rest, id);
    assert selected - (rest - {id}) == (selected - rest) + {id};
  }

  /** In a consistent store every prospect on a franchise holds a pick, so
      the listing never panics. */
  lemma ConsistentListingNeverPanics(picks: map<Uuid, Pick>, prospects: map<Uuid, Prospect>, franchise: Uuid)
    requires Consistent(picks, prospects)
    ensures forall id :: id in FranchiseSelection(prospects, franchise) ==> HasLoadedPick(picks, prospects[id])
  {
    forall id | id in FranchiseSelection(prospects, franchise)
      ensures HasLoadedPick(picks, prospects[id])
    {
      assert RosterFollowsPick(prospects[id]);
    }
  }
}
