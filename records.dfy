/** The rows of the four tables the service code works on. Primary keys are
    not fields: each table is a map from its key. Timestamps are left out. */
module Records {
  import opened Base

  /** The only league name the service lets anyone create or update. */
  const LeagueName: string := "Lakelandcup"

  /** A draft pick. Year, round and the two positions are numbers held as
      text columns in the source; the positions are null until the lottery
      has been run. `prospect` is the drafted player, if any. */
  datatype Pick = Pick(
    draftYear: int,
    draftRound: int,
    pickOverall: Option<int>,
    pickInRound: Option<int>,
    prospect: Option<Uuid>,
    owner: Uuid,
    ownerName: string,
    lastOwner: Uuid,
    lastOwnerName: string,
    origin: Uuid,
    originName: string)

  /** A player who can be drafted. `pick` is the has-one association back to
      the pick whose `prospect` names this player. */
  datatype Prospect = Prospect(
    fullName: string,
    firstName: string,
    lastName: string,
    nhlTeam: string,
    birthdate: string,
    height: string,
    weight: string,
    nhlDraftYear: string,
    nhlDraftRound: string,
    nhlDraftPickOverall: string,
    nhlDraftPickInRound: string,
    positionCode: string,
    protected: bool,
    league: Option<Uuid>,
    franchise: Option<Uuid>,
    pick: Option<Uuid>)

  /** A league, with the columns the league and pick services read and write
      (`draftRounds` is used by the pick board although the record file of
      the league lacks it). */
  datatype League = League(
    name: string,
    admin: string,
    adminId: Uuid,
    commissioner: string,
    commissionerId: Uuid,
    foundationYear: string,
    maxFranchises: int,
    maxProspects: int,
    draftRightsGoalie: int,
    draftRightsSkater: int,
    draftRounds: int)

  /** A franchise as the franchise service writes it. */
  datatype Franchise = Franchise(
    name: string,
    userId: Uuid,
    userName: string,
    foundationYear: string,
    leagueId: Uuid)
}
