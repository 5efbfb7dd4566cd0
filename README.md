# Lakelandcup fantasy service — a Dafny model

This project models the gRPC service behind the Lakelandcup fantasy-hockey
draft: the league, its franchises, the draft picks each franchise holds
season by season, and the prospects drafted with those picks. The store
(Postgres behind gorm) becomes an in-memory `Repository` class whose four
tables (`leagues`, `franchises`, `picks`, `prospects`) are maps from uuid to
record. Every RPC that writes is a method that `modifies` the repository and
is proved against a specification function of the old tables. Every listing
RPC is a method with a loop, proved against a projection function.

Modules:

- `Base` — the three shapes an id string can take (`RawId`), the response
  statuses, the reply of an RPC that may panic (`uuid.MustParse` on bad
  input, a nil pointer), and the text forms of uuids and numbers.
- `Records` — the four stored rows.
- `Store` — the repository class and the link invariant between a pick and
  the prospect drafted with it (`Consistent`).
- `Draft` — `DraftProspect` and `UndraftProspect`, one transaction each.
  The prospect service carries a verbatim copy of both RPCs; the same
  methods model it.
- `Picks` — `CreateOrUpdatePicks`, the draft board for a season (one pick
  per franchise and round, positions from the lottery), and the two pick
  listings.
- `Prospects` — the bulk prospect import and the per-franchise prospect
  listing.
- `Franchises` and `Leagues` — franchise and league creation, the league
  update, and the `GetFranchise` and `GetLeague` lookups.
- `Fantasy` — the older fantasy service (`service/fantasy.go`) with its own
  league and franchise rows, its creation RPCs, its listing of a user's
  leagues, and the scenarios its integration test walks through.

Two store behaviours are made explicit. First, gorm drops zero-valued
fields from a struct condition, so `Where(&Franchise{Name: ""})` matches
every row (`Store.FieldMatches`). Second, `uuid.New()` is a parameter: either
a stream `gen` of ids that are fresh for the table (`FreshSupply`) or a
single `newId` not yet in the table.

## Model

| member | source | states |
|---|---|---|
| Store.LinkedPickIsUnique | service/draft.go:145-158 | under the link invariant, two picks that name the same prospect are the same pick, so a prospect is drafted at most once |
| Draft.DraftProspect | service/draft.go:108-189 | the reply and the new pick and prospect tables are those of the draft transaction: on commit the pick names the prospect and the prospect carries the league, franchise and pick; on rollback nothing changes; leagues and franchises never change |
| Draft.UndraftProspect | service/draft.go:15-106 | the reply and the new tables are those of the undraft transaction: on commit the pick's prospect and the prospect's league, franchise and pick are cleared; on rollback nothing changes |
| Draft.DraftCommitsIff | service/draft.go:113-158 | a draft commits exactly when all four ids parse, the pick exists and holds no prospect, and the prospect exists and holds no pick |
| Draft.DraftCommitEffect | service/draft.go:160-170 | a committed draft writes exactly the pick's prospect and the prospect's league, franchise and pick, and no other row |
| Draft.DraftRefusesAssignedPick | service/draft.go:145-147 | a pick that already holds a prospect is refused with the "already assigned" reason |
| Draft.DraftRefusesDraftedProspect | service/draft.go:149-158 | a prospect that already holds a pick is refused with the "already drafted" reason |
| Draft.UndraftCommitsIff | service/draft.go:20-65 | an undraft commits exactly when the pick and prospect ids parse, the pick holds this prospect and the prospect holds this pick |
| Draft.AssociationIsDerived | models/prospect.go:27 | under the link invariant, the prospect's pick field and the pick's prospect field are one association read from either side |
| Draft.DraftKeepsConsistency | service/draft.go:160-170 | a committed draft keeps the two-way pick/prospect link invariant |
| Draft.UndraftKeepsConsistency | service/draft.go:80-88 | a committed undraft keeps the two-way pick/prospect link invariant |
| Draft.DraftThenUndraft | service/draft.go:80-88 | undrafting right after a committed draft commits and restores both tables exactly |
| Draft.UndraftThenDraft | service/draft.go:162-170 | drafting right after a committed undraft, with the prospect's own franchise and league, commits and restores both tables exactly |
| Draft.DraftTwiceConflicts | service/draft.go:145-147 | repeating a committed draft is rolled back |
| Picks.CreateOrUpdatePicks | service/picks.go:14-100 | the reply and the new pick table are those of the board function: 409 when the league is not Lakelandcup, 201 after all entries, a panic on a malformed id with the writes made before it kept; the other tables never change |
| Picks.UpsertRounds | service/picks.go:33-93 | the inner loop over rounds 1..DraftRounds leaves the table, the count of created picks and the lookups of the round function |
| Picks.EntriesHaltedStays | service/picks.go:31-32 | once the outer loop stops, later entries change nothing, and the writes made before the stop remain |
| Picks.OverallInRoundBlock | service/picks.go:49-55 | with lottery position l of n franchises, the overall pick of round r lies in the r-th block of n and is l inside it |
| Picks.OverallRoundMajor | service/picks.go:49-55 | overall picks order by round, then lottery position, and distinct (position, round) pairs never share an overall pick |
| Picks.BoardKeepsOwnership | service/picks.go:58-83 | every pick that existed keeps its year, round, owner, last owner, origin and prospect; every new pick belongs to its origin and holds no prospect |
| Picks.BoardKeepsConsistency | service/picks.go:58-83 | the board keeps the pick/prospect link invariant |
| Picks.BoardKeepsKeysUnique | service/picks.go:36-83 | a table with unique (origin, year, round) keys still has unique keys after the board |
| Picks.NeverMultiplePicks | service/picks.go:36-99 | on any table the board answers 201 exactly when the league is found and every entry's id parses, 409 for a missing league, and never the "Multiple picks" 403, since `Find` into one struct counts at most one row |
| Picks.EntriesStop | service/picks.go:31-32 | the outer loop stops exactly when some entry's franchise id does not parse |
| Picks.DuplicateKeySurvives | service/picks.go:36-83 | a key held by several picks is held by the same picks after the upsert; one of them is written and every other row is left as it was |
| Picks.RoundKeys | service/picks.go:33-36 | the rounds of one entry look up the keys (origin, year, 1..r), in order |
| Picks.BoardLookups | service/picks.go:31-36 | a run that finishes looks up exactly one key per entry and round, in request order |
| Picks.RoundShows | service/picks.go:45-83 | after the rounds of an entry run over a table with unique keys, exactly one pick has the key (origin, year, q) for each round q, and it carries the in-round and overall numbers of the entry's lottery position |
| Picks.RerunChangesNothing | service/picks.go:77-83 | sending the same lottery results again gives the same reply and leaves the table as the first run left it |
| Picks.ListPicks | service/picks.go:116-146 | the loop lists every selected pick exactly once, projected |
| Picks.GetPicksByYear | service/picks.go:102-153 | 200 with every pick of that draft year, once each |
| Picks.GetPicksByFranchise | service/picks.go:155-211 | 403 for a malformed id, quoting the uuid `uuid.Parse` returned with its error; otherwise 200 with every pick the franchise owns now, once each |
| Prospects.CreateProspectsBulk | service/prospects.go:247-286 | the new prospect table inserts, under fresh ids, one row for each entry not already stored; the reply is 201; no other table changes |
| Prospects.QueueCounts | service/prospects.go:251-268 | each entry not already stored is queued as often as the request repeats it; a stored one is never queued |
| Prospects.QueuedComesFromEntry | service/prospects.go:254-266 | every queued row is built from some entry that was not stored |
| Prospects.InsertAllAdds | service/prospects.go:270-272 | the insert keeps every old row and adds exactly the queued rows under fresh keys |
| Prospects.BulkKeepsConsistency | service/prospects.go:254-265 | imported prospects hold no pick, so the link invariant holds after the import |
| Prospects.BulkRerunInsertsNothing | service/prospects.go:253 | importing the same batch again inserts nothing |
| Prospects.NothingQueued | service/prospects.go:270-285 | a batch whose entries are all stored queues nothing |
| Prospects.GetProspectsByFranchise | service/prospects.go:15-69 | 403 for a malformed id, quoting the uuid `uuid.Parse` returned with its error; otherwise it answers exactly when every prospect of the franchise has a pick, listing each once, and panics on the nil pick otherwise |
| Prospects.ConsistentListingNeverPanics | service/prospects.go:55 | under the link invariant every listed prospect's pick exists, so the listing never panics |
| Franchises.CreateFranchise | service/franchise.go:13-57 | the reply and the new franchise table are those of the admission function; an admitted franchise is stored under the new id and its text is returned |
| Franchises.AdmittedIff | service/franchise.go:17-44 | a franchise is admitted exactly when both ids parse, the league exists, no franchise of that league has the name and the league is below its maximum |
| Franchises.NameCheckedBeforeCapacity | service/franchise.go:25-38 | in a full league a taken name draws the name error, not the capacity error |
| Franchises.UnknownLeagueRefused | service/franchise.go:17-22 | an unknown league id draws 409 naming the id |
| Franchises.AdmissionGrowsLeagueByOne | service/franchise.go:33-51 | an admitted franchise adds exactly one member to its league, not beyond the maximum, and no other league changes |
| Franchises.CreateKeepsCapacity | service/franchise.go:33-38 | no league exceeds its maximum number of franchises after a creation |
| Franchises.CreateKeepsNamesUnique | service/franchise.go:25-30 | franchise names stay unique within each league |
| Franchises.WrittenProspects | service/franchise.go:81-92 | the prospect list as written has at most one entry, whatever the roster |
| Franchises.ListedProspectsComplete | service/franchise.go:81-92 | the corrected list has one entry per prospect of the franchise |
| Franchises.WrittenProspectsDropRoster | service/franchise.go:81-92 | a franchise with prospects gets an empty list, one without gets one blank entry |
| Franchises.GetFranchise | service/franchise.go:59-107 | 202 exactly when the id parses and the franchise exists, with its id, owner id and name, name, foundation year and the as-written prospect list; otherwise 409 naming the id and the store error ("record not found" for an unknown id) |
| Franchises.GetFranchiseDropsRoster | service/franchise.go:64-107 | a franchise that holds a prospect is found and answered with an empty prospect list |
| Leagues.CreateLeague | service/league.go:14-59 | the reply and the new league table are those of the creation decision; a stored league gets the new id |
| Leagues.UpdateLeague | service/league.go:61-98 | the reply and the new league table are those of the update decision: every field of the row is overwritten under the request's id, or, for the nil id, inserted under a new id |
| Leagues.CreateStoresIff | service/league.go:17-39 | a league is stored exactly when it is named Lakelandcup, no league has that name yet, and both user ids parse |
| Leagues.CreateKeepsSingleLakelandcup | service/league.go:18-53 | a creation keeps at most one league named Lakelandcup, and adds one row |
| Leagues.CreateAfterRenameAddsLeague | service/league.go:26-31 | once the one Lakelandcup league is renamed by an update, a creation stores a second league, since it looks only at names |
| Leagues.CreateTwiceConflicts | service/league.go:26-31 | a second creation after a stored one draws "League already exists" |
| Leagues.UpdateKeepsSingleLakelandcup | service/league.go:66-92 | an update by a real id keeps the set of keys and at most one league named Lakelandcup; an update by the nil id adds the request's row under a new key |
| Leagues.NilIdUpdateAddsLakelandcup | service/league.go:66-92 | while a Lakelandcup league is stored, an update by the nil id that keeps the name answers 201 with a new id and leaves two leagues named Lakelandcup |
| Leagues.RenamedLeagueIsFrozen | service/league.go:66-74 | a league not named Lakelandcup can never be updated |
| Leagues.Aliased | service/league.go:122-135 | the list as written repeats the last member once per member, or one blank entry |
| Leagues.AliasedItems | service/league.go:122-135 | the loop over the league's members visits each member once and leaves one pointer per member, all showing the last one visited |
| Leagues.GetLeague | service/league.go:100-157 | 202 exactly when the id parses and the league exists, with the league's fields and the list as written over an enumeration of its members; otherwise 409 naming the id |
| Leagues.AliasedHidesFirstFranchise | service/league.go:122-135 | with two members of different names, the written list never shows the first |
| Leagues.ListedNamesEveryMember | service/league.go:122-135 | the corrected list names every member |
| Fantasy.CreateLeague | service/fantasy.go:21-52 | the reply and the new table are those of the decision: 409 on a taken name, a panic on a malformed user id, else 201 and the row stored |
| Fantasy.CreateLeagueKeepsNamesUnique | service/fantasy.go:28-33 | league names stay unique |
| Fantasy.CreateFranchise | service/fantasy.go:95-139 | the reply and the new table are those of the decision: unknown league, name taken, league full, malformed owner, else 201 |
| Fantasy.AdmittedFranchiseFits | service/fantasy.go:116-126 | an admitted franchise joins a league below its maximum under a name not yet used there |
| Fantasy.NilUuidText | test/fantasy_test.go:34-35 | the nil uuid prints as 36 characters of zeros and dashes |
| Fantasy.LeagueCreationScenario | test/fantasy_test.go:107-151 | the first creation of the test league answers 201 and a second one 409 "League already exists" |
| Fantasy.FirstFranchiseAccepted | test/fantasy_test.go:153-185 | the first franchise in the one-franchise test league answers 201 |
| Fantasy.NilLeagueRefused | test/fantasy_test.go:187-206 | a franchise for the nil league id draws 409 naming that id |
| Fantasy.SecondNameFindsLeagueFull | test/fantasy_test.go:208-227 | a second franchise in the full league draws the capacity error with maximum 1 |
| Fantasy.RepeatedNameRefused | test/fantasy_test.go:229-248 | a repeated franchise name draws the name error |
| Fantasy.FranchiseCreationScenario | test/fantasy_test.go:153-254 | the four franchise requests of the test, in order, give 201, 409, 409, 409 |
| Fantasy.OwnedEntries | service/fantasy.go:62-76 | the inner loop yields one blank entry for a league without franchises; otherwise exactly one entry per franchise of the league the user owns, and, since each appended entry is the address of one temporary, all of them show the same one of those franchises |
| Fantasy.GetAllLeaguesForUser | service/fantasy.go:54-93 | 201 with each league the user founded or holds a franchise in, once each, its heading, and franchise lists that grow across leagues as written |

## Left out

- `TextSearchProspects` (service/prospects.go:288-354) is not modelled: it is a raw Postgres full-text query whose ranking lives in the database.
- `GetLeagues` (service/league.go:159-204) and `GetLeagueFranchises` (service/franchise.go:109-153) are not modelled. They are plain read-only listings like the ones that are.
- Pick trading has no RPC in the service code. The owner, last-owner and origin fields are only written at pick creation, so no trade operation is modelled.
- The in-memory store never fails. The 403 branches taken when a `Create`, `Find` or `Count` call reports a database error are not modelled. Neither are the ignored errors of `Save` (service/picks.go:83, service/league.go:87-92).
- The `RowsAffected == 0` branches after `First` are folded into not-found, because `First` already reports not-found as an error.
- gorm drops a nil uuid from a struct condition just like an empty string, so `Where(&Pick{ID: uuid.Nil})` matches any row. The model follows this in `UpdateLeague` only; elsewhere it treats the nil uuid like every other id.
- Which uuid `uuid.Parse` returns beside its error for a rejected string (the bytes decoded before the failure) is a field of `RawId.Malformed`, not computed from the text: the parser is library code.
- The uuid spellings Postgres accepts in a query are not modelled. An id the store is asked for is the one `uuid.Parse` reads from the text.
- Timestamps set by the `BeforeCreate`/`BeforeUpdate` hooks (models/pick.go:28-37) are not modelled.
- Row locking and concurrent requests are not modelled: each RPC runs alone against the tables.
- Logging is not modelled.
- Process recovery after a panic is not modelled. A panic is an outcome of the RPC (`Reply.Panicked`).
- Integers are unbounded. The service copies int32 request fields into int columns and back, so no value is truncated on the paths modelled.
- Pick years, rounds and positions are stored as text. The model keeps them as integers and prints them with `DecimalString`; year text that is not a decimal number is not modelled.
- Picks.CreateOrUpdatePicks: `n` is the number of franchises in the whole table, as in service/picks.go:29, not in the league.
- Picks.CreateOrUpdatePicks: when several rows hold one natural key, `Find` into a single struct (service/picks.go:36) reads the first row the store returns; that order is not fixed, and the model takes the least key. The "Multiple picks" 403 at service/picks.go:85-90 is never reached, so the model has no such answer (`Picks.NeverMultiplePicks`).
- Leagues.CreateAfterRenameAddsLeague: the service does not keep "at most one league". Creation looks only at the name (service/league.go:26), so after `UpdateLeague` renames the Lakelandcup league a creation stores a second league. No lemma claims a single league.
- Leagues.UpdateKeepsSingleLakelandcup: holds for a real id only. An update by the nil id finds any Lakelandcup league (service/league.go:66), writes the nil key back (service/league.go:73), and `Save` with a zero key inserts a new row under a fresh id, possibly a second Lakelandcup league (`Leagues.NilIdUpdateAddsLakelandcup`).
- Picks.RerunChangesNothing: assumes request entries with parseable ids and distinct (franchise, year) pairs, and a table with unique natural keys. Without these the first run can itself panic or overwrite its own picks.
- Draft.UndraftThenDraft: holds only for a draft request whose franchise and league are the ones the prospect held, since the draft writes the request's values.
- Franchises.CreateKeepsCapacity: only franchise creation keeps the capacity invariant. `UpdateLeague` can lower `maxFranchises` below the current member count.
- Franchises.GetFranchise: the database's error text for a failed lookup is a parameter.
- Fantasy.GetAllLeaguesForUser: states which entries may appear (blank or owned by the user) and that the lists grow across leagues; how many entries each league adds, and that they are copies of one franchise, is stated per league by `Fantasy.OwnedEntries`, not carried through the outer loop.
- The model rows (models/franchise.go, models/league.go) differ from the fields the services write; the model follows the service code. For example, the service's franchise has a user id and name, and the league has `DraftRounds`.

## Findings

| source | as written | input that shows it | evidently intended | confidence | as-written member | corrected member |
|---|---|---|---|---|---|---|
| service/league.go:122-135 | every list entry points at the one loop variable, so all entries show the last franchise | a league with two franchises of different names | one entry per franchise with its own fields | high, not executed | Leagues.AliasedHidesFirstFranchise | Leagues.ListedNamesEveryMember |
| service/franchise.go:81-92 | the loop fills a local entry and never appends it; the list is empty when the franchise has prospects and one blank entry when it has none | a franchise holding one prospect | one entry per prospect of the franchise | high, not executed | Franchises.WrittenProspectsDropRoster | Franchises.ListedProspectsComplete |
