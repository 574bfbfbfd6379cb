# Snake-draft server logic in Dafny

This project models the server side of a fantasy-hockey draft application, built on a
reactive document database (Convex). Its three parts:

- **Drafts** (`convex/drafts.ts`). Users create drafts and join them with one team each. The
  host shuffles the draft order, starts the draft and finishes it. Picks advance in snake
  order: forward in odd rounds, in reverse in even rounds. Draft pages send heartbeats, and a
  presence registry answers who is online.
- **Todos** (`convex/todos.ts`). A per-user todo list; every edit is checked against the owner.
- **Seed** (`convex/seed.ts`). The catalog of 45 draftable players is seeded once and can be
  cleared.

Each database table is a `map` from document id to record, plus the next fresh id. Ids are
handed out in increasing order. An index scan that returns documents in creation order is
therefore `Tables.IdsWhere`: the ids below the next fresh id whose records satisfy a
selection, in ascending order. Every `.withIndex(...).filter(...).collect()` of the source is
an instance of it, and `.first()` is its head.

Each mutation is one method of a class that holds its tables:

- `Drafts.DraftStore` holds the `drafts`, `draftTeams` and `draftPresence` tables.
- `Todos.TodoTable` holds the todos.
- `Seed.PlayerTable` holds `draftablePlayers`.

`joinDraft` is modelled twice: `DraftStore.JoinDraftAsWritten` follows the code, and
`DraftStore.JoinDraft` adds the status check described under "## Findings".

Queries are functions over table snapshots.

Thrown errors become `Failure`/`Fail` results, with one constructor per kind of failed check.
The message text, which differs from one mutation to another, is not modelled. A failing
mutation leaves its tables as they were.

The signed-in user is an `Option<AuthUser>` parameter:

- The draft operations treat a user with an empty id as signed out (`Identity.AuthId`).
- The todo operations only test for presence.

The clock is a parameter `now`. The random draw of the shuffle is an oracle `nat -> nat`: pass
`i` swaps with `oracle(i) % (i + 1)`.

`Drafts.StoreInvariant` is the invariant of the draft store, kept by every mutation:

- ids are below the next fresh id;
- every team belongs to an existing draft;
- at most one team per (draft, user);
- the draft-order numbers of a draft's N teams are exactly 1..N;
- at most one presence entry per (draft, user);
- a draft in PRE is at pick 1 with no pick clock.

`Drafts.DraftsEvolve` states how a mutation may change the existing drafts. Name, start time
and host stay fixed. The status only moves forward. The pick number never decreases. A
finished draft is frozen.

## Model

| member | source | states |
|---|---|---|
| Identity.AuthId | convex/drafts.ts:12-17 | a caller counts as signed in exactly when present with a non-empty id, and its user id is then that id |
| Tables.IdsWhere | convex/drafts.ts:65-68 | the index scan lists only selected records below the next id, and every one of them |
| Tables.IdsWhereMembers | convex/drafts.ts:126-130 | an id is in the scan if and only if its record exists, is below the bound and is selected |
| Tables.IdsWhereNone | convex/drafts.ts:137-140 | a scan that selects no record returns nothing |
| Tables.IdsWhereFrame | convex/drafts.ts:316-318 | two tables that select the same ids below the bound give the same scan |
| Tables.IdsWhereInsert | convex/drafts.ts:145-150 | inserting under the next id appends that id to every scan that selects it and changes no other scan |
| Tables.IdsWhereIncreasing | convex/drafts.ts:392-395 | a scan is in strictly ascending id (creation) order and never repeats an id |
| Tables.IdsWhereCount | convex/drafts.ts:65-72 | the length of a scan is the number of selected records |
| Tables.ScanAll | convex/seed.ts:84 | a scan that selects everything lists each record of the table once, so its length is the table's size |
| Snake.Round | convex/drafts.ts:410 | the round is the one whose block of N consecutive picks contains the pick: (round-1)·N < pick ≤ round·N |
| Snake.TeamIndex | convex/drafts.ts:411-419 | the team index on the clock lies in 0..N-1, so the sorted team list can always be indexed with it |
| Snake.PickOf | convex/drafts.ts:410-419 | the pick at which a given team index is on the clock in a given round lies in that round |
| Snake.PickInRound | convex/drafts.ts:413-419 | the k-th pick of a round belongs to that round; the team on the clock is the k-th in odd rounds and the k-th from last in even rounds |
| Snake.PickDecomposition | convex/drafts.ts:410-415 | every pick is (round-1)·N + offset + 1, with offset = (pick-1) mod N |
| Snake.PickOfInverse | convex/drafts.ts:406-419 | within one round the resolver is a bijection between picks and team indexes, with PickOf as its inverse |
| Snake.SnakePair | convex/drafts.ts:410-419 | the team that picks k-th in odd round 2m+1 picks k-th from last in round 2m+2 |
| Snake.ThreeTeamsTwoRounds | convex/drafts.ts:406-419 | with 3 teams, picks 1..6 go to team indexes 0,1,2,2,1,0 |
| Snake.FourTeamsTwoRounds | convex/drafts.ts:406-419 | with 4 teams, picks 1..8 go to team indexes 0,1,2,3,3,2,1,0 |
| Shuffle.Swap | convex/drafts.ts:328 | a swap exchanges the two positions and leaves every other element in place |
| Shuffle.FisherYates | convex/drafts.ts:325-329 | the shuffle of passes i down to 1 keeps the length of the list |
| Shuffle.ShuffleInPlace | convex/drafts.ts:325-329 | the descending in-place swap loop leaves the array holding the Fisher–Yates shuffle of its old contents |
| Shuffle.SwapPermutes | convex/drafts.ts:328 | a swap keeps the multiset of elements |
| Shuffle.FisherYatesPermutes | convex/drafts.ts:325-329 | for every sequence of draws the shuffle is a permutation of its input |
| Shuffle.PermutationKeepsDistinct | convex/drafts.ts:325 | a permutation of a list without repeats has no repeats |
| Drafts.TeamsOf | convex/drafts.ts:137-140 | the `draftId` index scan lists exactly the draft's teams |
| Drafts.FindUserTeam | convex/drafts.ts:126-130 | the first team of the user in the draft: it is one, and there is none exactly when the result is missing |
| Drafts.InsertByOrder | convex/drafts.ts:224 | insertion into a list sorted by draft order adds exactly the new team to the multiset |
| Drafts.InsertKeepsSorted | convex/drafts.ts:224 | insertion keeps a list sorted by draft order |
| Drafts.SortByOrder | convex/drafts.ts:224 | the sort returns a permutation of its input, sorted by draft order |
| Drafts.GetDraftTeams | convex/drafts.ts:213-227 | the draft's teams, sorted by draft order, as a permutation of the scan |
| Drafts.DraftEvolvesTransitive | convex/drafts.ts:276-280 | the allowed change of a draft record is reflexive and transitive |
| Drafts.DraftHistory | convex/drafts.ts:276-280 | along any sequence of mutations each making an allowed change, the last record is an allowed change of the first |
| Drafts.SortedTeamsOfDraft | convex/drafts.ts:218-226 | the sorted list holds teams of the draft only, each once |
| Drafts.ConsecutiveOrders | convex/drafts.ts:221-224 | when the draft's orders are dense, the k-th team of the sorted list has draft-order number k+1 |
| Drafts.TeamCountIsCardinality | convex/drafts.ts:65-72 | the team count is the number of teams in the draft |
| Drafts.GetDraftWithTeamCount | convex/drafts.ts:49-75 | null exactly when no id is given or the draft is missing; otherwise the draft and its number of teams |
| Drafts.IsUserInDraft | convex/drafts.ts:77-103 | true if and only if a draft id is given, the caller is signed in and has a team in that draft |
| Drafts.Dedup | convex/drafts.ts:184-187 | deduplication keeps every id and repeats none |
| Drafts.DraftsOfTeams | convex/drafts.ts:179-184 | the existing drafts of the given teams, and only those |
| Drafts.UserDraftIds | convex/drafts.ts:167-187 | the drafts the user hosts or has a team in, each once, and no others |
| Drafts.UserTeamName | convex/drafts.ts:199-204 | the user's team name in the draft, present exactly when the user has a team there |
| Drafts.UserDraftEntry | convex/drafts.ts:190-206 | one entry of the list: the draft, its team count, and the caller's team name when the caller plays in it |
| Drafts.GetUserDrafts | convex/drafts.ts:156-211 | empty for a signed-out caller; otherwise one entry per draft of `UserDraftIds`, in order |
| Drafts.UserDraftsListed | convex/drafts.ts:183-209 | every draft the caller hosts or plays in appears exactly once in `getUserDrafts`, and nothing else |
| Drafts.GetCurrentPick | convex/drafts.ts:381-431 | null unless the draft exists, is DURING and has a team; otherwise the stored pick, its round, a team of the draft, and the stored start time (now when none or zero is stored) |
| Drafts.OnTheClock | convex/drafts.ts:397-421 | for a DURING draft with teams and dense orders, there is a current pick, and the team on the clock is the draft's team whose draft-order number is the snake index plus one |
| Drafts.FindPresence | convex/drafts.ts:488-492 | the user's first presence entry for the draft, missing exactly when there is none |
| Drafts.GetOnlineUsers | convex/drafts.ts:511-533 | a user is listed if and only if they have an entry for the draft under 30 000 ms old |
| Drafts.OnlineUsersDistinct | convex/drafts.ts:520-531 | with one entry per (draft, user), nobody is listed twice |
| Drafts.IsHost | convex/drafts.ts:250 | the caller is the host exactly when the draft records that non-empty user id as its host |
| Drafts.HostCheck | convex/drafts.ts:236-252 | passes exactly for a signed-in host of an existing draft; otherwise fails with the first failing check, in source order |
| Drafts.JoinCheckAsWritten | convex/drafts.ts:112-134 | the join checks as the code makes them: passes exactly for a signed-in caller without a team in an existing draft, whatever its status; otherwise the first failing check |
| Drafts.JoinCheck | convex/drafts.ts:112-134 | the corrected join checks: as the code's, plus a NotPreDraft failure for a draft that has left PRE, so a join passes only for a PRE draft |
| Drafts.HostTeamName | convex/drafts.ts:32 | the host team's name is the user's name, or "Host" when the name is empty, followed by "'s Team" |
| Drafts.MaxPicks | convex/drafts.ts:451 | the pick limit is the last pick of round 10, so the pick after it would open round 11 |
| Drafts.TeamsOfAfterInsert | convex/drafts.ts:145-150 | a new team appears at the end of its own draft's scan and in no other |
| Drafts.InsertTeamKeepsDenseIn | convex/drafts.ts:142-150 | a team at order count+1 keeps its draft's orders 1..N, and other drafts' orders unchanged |
| Drafts.InsertTeamKeepsDense | convex/drafts.ts:142-150 | a team at order count+1 keeps every draft's orders dense |
| Drafts.Renumbered | convex/drafts.ts:332-336 | the patch loop keeps the same set of team ids in the table |
| Drafts.RenumberedKeepsRecords | convex/drafts.ts:332-336 | the patch loop changes only draft-order numbers |
| Drafts.RenumberedUntouched | convex/drafts.ts:332-336 | the patch loop leaves every team it has not reached as it was |
| Drafts.RenumberedOrders | convex/drafts.ts:332-336 | after k passes, the first k shuffled teams carry orders 1..k |
| Drafts.RenumberKeepsScans | convex/drafts.ts:332-336 | changing only draft-order numbers leaves every draft's team scan as it was |
| Drafts.RenumberOtherDraft | convex/drafts.ts:332-336 | a draft with none of its teams renumbered keeps dense orders |
| Drafts.RenumberThisDraft | convex/drafts.ts:332-336 | numbering a permutation of the draft's teams 1..N makes its orders exactly 1..N |
| Drafts.RenumberKeepsDense | convex/drafts.ts:324-336 | the renumbering keeps dense orders in every draft and leaves the team scans unchanged |
| Drafts.SortedIsShuffled | convex/drafts.ts:324-336 | after the renumbering, `getDraftTeams` returns the teams in shuffled order |
| Drafts.AddDraftPreserves | convex/drafts.ts:20-26 | a new PRE draft keeps the invariant; it has no teams yet and no user has a team in it |
| Drafts.AddTeamPreserves | convex/drafts.ts:137-150 | a team for a user without one in an existing draft, at order count+1, keeps the invariant and is appended to the draft's scan |
| Drafts.UpdateDraftPreserves | convex/drafts.ts:276-280 | a patched draft record keeps the invariant as long as a PRE draft stays at pick 1 with no clock |
| Drafts.RenumberPreserves | convex/drafts.ts:324-336 | the renumbering keeps the invariant and the draft's teams, and the sorted list becomes the shuffle |
| Drafts.AddPresencePreserves | convex/drafts.ts:500-505 | a first entry for a (draft, user) keeps the invariant and is then the entry found |
| Drafts.TouchPresencePreserves | convex/drafts.ts:494-498 | refreshing `lastSeen` keeps the invariant and the entry found |
| Drafts.RemovePresencePreserves | convex/drafts.ts:555-557 | deleting the found entry keeps the invariant and leaves no entry for the (draft, user) |
| Drafts.CreatePreserves | convex/drafts.ts:20-34 | the new draft and its host team keep the invariant, and the host team is the draft's only team |
| Drafts.SingleTeamListed | convex/drafts.ts:29-34 | a draft with one team lists just that team in `getDraftTeams` |
| Drafts.Joined | convex/drafts.ts:136-150 | the code's join update: the table gains exactly the new id, which holds the caller's team at order count+1; every other team is unchanged |
| Drafts.JoinMidDraftTakesPick | convex/drafts.ts:105-154 | a user joining a DURING draft of N teams at pick N+1 passes the code's checks and fails the corrected ones; the join keeps orders dense and adds a team, and the pick moves from the team at order N to the newcomer |
| Drafts.ClockBeforeJoin | convex/drafts.ts:397-421 | at pick N+1 of a DURING draft with N dense teams, the team at order N is on the clock |
| Drafts.ClockAfterJoin | convex/drafts.ts:397-421 | once a team joins at order N+1, pick N+1 goes to it |
| Drafts.LastPickOfFirstRound | convex/drafts.ts:397-421 | at pick N+1 of a DURING draft with N+1 dense teams, the team at order N+1 is on the clock |
| Drafts.TopOrderIsNewTeam | convex/drafts.ts:142-150 | a team that joins at order N+1 is the only team of its draft with that order |
| Drafts.DraftStore.constructor | convex/schema.ts:4-24 | the empty database satisfies the store invariant |
| Drafts.DraftStore.InsertDraft | convex/drafts.ts:20-26 | the insert keeps the invariant, uses the next id, and changes nothing else |
| Drafts.DraftStore.InsertTeam | convex/drafts.ts:145-150 | the insert keeps the invariant, uses the next id, appends to the draft's scan and changes nothing else; the first team of a draft is its whole sorted list |
| Drafts.DraftStore.Create | convex/drafts.ts:5-38 | fails unchanged when signed out; otherwise a new PRE draft at pick 1 hosted by the caller and the host team at order 1, its only team and its whole `getDraftTeams` list; drafts evolve as allowed |
| Drafts.DraftStore.JoinDraftAsWritten | convex/drafts.ts:105-154 | `joinDraft` as written: fails unchanged as `JoinCheckAsWritten` says (signed out, draft missing, caller already in it), whatever the draft's status; otherwise the team table becomes `Joined` of the old one, the team is appended to the scan and nothing else changes |
| Drafts.DraftStore.JoinDraft | convex/drafts.ts:105-154 | the corrected join of "## Findings" (the as-written one is `JoinDraftAsWritten`): fails unchanged as `JoinCheck` says (signed out, draft missing, draft not in PRE, caller already in it, in that order); otherwise appends a team at order count+1 and nothing else changes; a draft that has started keeps its teams |
| Drafts.DraftStore.StartDraft | convex/drafts.ts:230-284 | the host checks, then not PRE, before start time, no teams, in that order; on success only the draft changes: DURING, pick 1, clock started now |
| Drafts.DraftStore.AssignOrders | convex/drafts.ts:331-336 | the patch loop gives the k-th shuffled team order k+1 and changes no other table |
| Drafts.DraftStore.ReorderTeams | convex/drafts.ts:331-336 | renumbering a permutation of a draft's teams keeps the invariant, changes only their orders, and makes `getDraftTeams` return the permutation |
| Drafts.DraftStore.RandomizeDraftTeams | convex/drafts.ts:286-340 | the host checks, then not PRE, then no teams; on success the teams are numbered 1..N in Fisher–Yates order, nothing else changes, and the sorted list is the shuffle |
| Drafts.DraftStore.FinishDraft | convex/drafts.ts:342-378 | the host checks, then not DURING; on success only the status changes, to POST |
| Drafts.DraftStore.AdvancePick | convex/drafts.ts:434-471 | fails unchanged unless the draft exists and is DURING; past numTeams·10 it sets POST and keeps pick and clock; otherwise the pick is the next one and the clock restarts now |
| Drafts.DraftStore.UpdatePresence | convex/drafts.ts:474-508 | a no-op when signed out; otherwise refreshes the caller's entry or inserts one, after which exactly one is found with `lastSeen` = now |
| Drafts.DraftStore.RemovePresence | convex/drafts.ts:536-559 | a no-op when signed out; otherwise deletes only the caller's entry for the draft, after which none is found |
| Todos.GetTodos | convex/todos.ts:6-21 | empty for a signed-out caller; otherwise exactly the caller's todos |
| Todos.GetTodosInOrder | convex/todos.ts:14-17 | the list is in creation order without repeats |
| Todos.GetTodosAfterCreate | convex/todos.ts:34-38 | a new todo appears at the end of its owner's list and in no other user's list |
| Todos.OwnerCheck | convex/todos.ts:50-62 | passes exactly for the signed-in owner of an existing todo; otherwise the first failing check, in order |
| Todos.Toggled | convex/todos.ts:64-66 | a toggle flips `isCompleted` and keeps text and owner |
| Todos.ToggleTwice | convex/todos.ts:64-66 | toggling twice restores the record |
| Todos.ToggleTwiceRestoresTable | convex/todos.ts:55-66 | after a permitted toggle a second toggle is permitted too and restores the table |
| Todos.TodoTable.constructor | convex/todos.ts:14-17 | the empty table satisfies its invariant |
| Todos.TodoTable.CreateTodo | convex/todos.ts:24-42 | fails unchanged when signed out; otherwise one open todo of the caller with the text, under the next id |
| Todos.TodoTable.ToggleTodo | convex/todos.ts:45-68 | fails unchanged as the owner check says; otherwise only the todo's flag flips |
| Todos.TodoTable.DeleteTodo | convex/todos.ts:71-92 | fails unchanged as the owner check says; otherwise exactly that todo disappears and every other is unchanged |
| Todos.TodoTable.UpdateTodo | convex/todos.ts:95-119 | fails unchanged as the owner check says; otherwise only the text changes |
| Seed.ForwardsPositions | convex/seed.ts:15-34 | twenty forwards, each a C, LW or RW |
| Seed.DefencemenPositions | convex/seed.ts:37-51 | fifteen defencemen, each a D |
| Seed.GoaliesPositions | convex/seed.ts:54-63 | ten goalies, each a G |
| Seed.SeedPlayersShape | convex/seed.ts:13-64 | the seed list has 45 players, each at one of C, LW, RW, D, G |
| Seed.Catalog | convex/seed.ts:66-70 | inserting a list from a fresh id puts its k-th player under id start+k and nothing else |
| Seed.IdRange | convex/seed.ts:66-70 | the pushed ids are consecutive from the first fresh id, in insertion order |
| Seed.SeedSpec | convex/seed.ts:8-70 | a table holding players is left as it is; an empty one receives the list under consecutive ids from the next fresh id, and the next id moves past them |
| Seed.SeedIdempotent | convex/seed.ts:8-11 | with a non-empty list, seeding a second time changes nothing |
| Seed.SeedPlayersIdempotent | convex/seed.ts:8-11 | seeding the 45 players twice leaves the table as seeding once |
| Seed.PlayerTable.constructor | convex/schema.ts:26-30 | the empty table satisfies its invariant |
| Seed.PlayerTable.InsertAll | convex/seed.ts:66-70 | the insert loop stores the list in order under consecutive fresh ids and returns those ids |
| Seed.PlayerTable.SeedFrom | convex/seed.ts:6-77 | non-empty table: unchanged, "Players already seeded" with its size; empty table: the list inserted in order, "Successfully seeded draftable players", the list's length and the new ids |
| Seed.PlayerTable.SeedDraftablePlayers | convex/seed.ts:4-78 | the seed with the 45-player list, with the same outcome |
| Seed.PlayerTable.DeleteAll | convex/seed.ts:85-87 | the delete loop removes exactly the listed ids and leaves every other player as it was |
| Seed.PlayerTable.ClearDraftablePlayers | convex/seed.ts:81-90 | the table ends empty, and the result is "All players cleared" with the number of players it held |

## Left out

- `getDraftById` (`convex/drafts.ts:40-47`) is not modelled: it is a bare record lookup, `drafts[d]` in the model.
- Picks are not part of this model. `makePick`, `getAvailablePlayers` and the other pick queries live in a `draftPicks` module that is not among the modelled files. Properties of recorded picks belong to that module and are not stated here.
- Concurrency is out of scope. Every mutation is one atomic step, so races between concurrent mutations are not modelled. This includes two `randomizeDraftTeams` calls, or a `joinDraft` that runs between the scan and the patches.
- The client-side 45-second timer that calls `advancePick` is not modelled.
- `Date.now()` becomes the parameter `now`.
- `Math.random()` becomes the oracle. `Math.floor(Math.random() * (i + 1))` is modelled as `oracle(i) % (i + 1)`, which covers every draw `0 <= j <= i` but says nothing about the distribution.
- No stale-presence sweep exists: `updatePresence` (`convex/drafts.ts:474-508`) deletes nothing, and neither does the model. Old entries only stop counting as online after 30 s.
- `create` takes no team name. The host team is named after the user, or "Host" when the name is empty (`convex/drafts.ts:32`). A missing name is modelled as the empty string.
- `advancePick` assumes 10 rounds (`convex/drafts.ts:451`), and so does `ROUNDS`.
- `convex/schema.ts` is stale. It has no `currentDraftPickNumber` or `currentPickStartTime` on drafts, and it has no `draftPresence` or `todos` table. The model drops the legacy `hostUserId` field of drafts, which no modelled operation reads or writes. Record shapes follow what `drafts.ts` and `todos.ts` write. `currentPickStartTime` is optional and `hostBetterAuthUserId` is optional.
- Index order: within one index key, the model returns documents in creation order (ascending id). Order across different keys is not used by any modelled operation.
- Returned documents are represented by their ids. The record is the table entry under that id.
- Drafts.GetDraftTeams: the comparator `a.draftOrderNumber - b.draftOrderNumber` is modelled by a stable insertion sort. JavaScript's `Array.prototype.sort` is stable, but its algorithm is not modelled. Only the result matters: a sorted permutation, and the teams in shuffled order after the renumbering.
- Numbers are unbounded integers. JavaScript doubles lose precision above 2^53, which no realistic pick number, id or timestamp reaches, so this is not modelled.

## Findings

| source | as written | input that shows it | evidently intended | confidence | as-written member | corrected member |
|---|---|---|---|---|---|---|
| convex/drafts.ts:105-154 | `joinDraft` checks sign-in, that the draft exists and that the caller has no team in it, but never the draft's status, so a team can join a DURING or POST draft | a DURING draft with N teams at pick N+1; a new user joins and gets order N+1, so pick N+1 now falls in round 1 and goes to the newcomer, not to the team at order N | the roster is fixed once the draft starts: teams join only while the draft is in PRE | medium, not executed | Drafts.JoinCheckAsWritten, Drafts.Joined, Drafts.DraftStore.JoinDraftAsWritten, Drafts.JoinMidDraftTakesPick | Drafts.JoinCheck, Drafts.DraftStore.JoinDraft |
