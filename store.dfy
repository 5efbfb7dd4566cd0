/** The repository the service talks to through gorm, as four in-memory
    tables, and the consistency every write of the draft logic keeps. */
module Store {
  import opened Base
  import opened Records

  class Repository {
    var leagues: map<Uuid, League>
    var franchises: map<Uuid, Franchise>
    var picks: map<Uuid, Pick>
    var prospects: map<Uuid, Prospect>

    constructor ()
      ensures leagues == map[] && franchises == map[]
      ensures picks == map[] && prospects == map[]
    {
      leagues, franchises := map[], map[];
      picks, prospects := map[], map[];
    }
  }

  /** gorm's struct conditions leave out zero-valued fields, so an empty
      string in a query struct matches every stored value. */
  predicate FieldMatches(query: string, stored: string)
  {
    query == "" || query == stored
  }

  /** The pick/prospect edge is never one-sided: a pick names a prospect
      exactly when that prospect's pick link names the pick back. */
  ghost predicate Linked(picks: map<Uuid, Pick>, prospects: map<Uuid, Prospect>)
  {
    && (forall p :: p in picks && picks[p].prospect.Some? ==>
          picks[p].prospect.value in prospects && prospects[picks[p].prospect.value].pick == Some(p))
    && (forall x :: x in prospects && prospects[x].pick.Some? ==>
          prospects[x].pick.value in picks && picks[prospects[x].pick.value].prospect == Some(x))
  }

  /** A prospect carries a league and a franchise exactly while it is drafted. */
  predicate RosterFollowsPick(x: Prospect)
  {
    x.pick.Some? == x.league.Some? == x.franchise.Some?
  }

  ghost predicate Consistent(picks: map<Uuid, Pick>, prospects: map<Uuid, Prospect>)
  {
    && Linked(picks, prospects)
    && (forall x :: x in prospects ==> RosterFollowsPick(prospects[x]))
  }

  /** Under the link invariant no prospect is held by two picks. */
  lemma LinkedPickIsUnique(picks: map<Uuid, Pick>, prospects: map<Uuid, Prospect>, a: Uuid, b: Uuid)
    requires Linked(picks, prospects)
    requires a in picks && b in picks
    requires picks[a].prospect.Some? && picks[a].prospect == picks[b].prospect
    ensures a == b
  {
    var x := picks[a].prospect.value;
    assert prospects[x].pick == Some(a);
    assert prospects[x].pick == Some(b);
  }
}
