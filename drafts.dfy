/** The server-side draft logic: drafts, their teams and the presence registry, the queries
    that read them and the mutations that change them. Each mutation is one atomic step of
    the store; the caller identity and the clock are parameters. */
module Drafts {
  import opened Wrappers
  import opened Identity
  import opened Tables
  import Snake
  import Shuffle

  type DraftId = nat
  type TeamId = nat
  type PresenceId = nat

  /** Pick numbers are 1-based. */
  type PickNumber = n: int | n >= 1 witness 1

  /** Rounds in a draft: the last pick is `numTeams * ROUNDS`. */
  const ROUNDS: int := 10

  /** A user is online when their last heartbeat is less than this many milliseconds old. */
  const ONLINE_THRESHOLD: int := 30 * 1000

  datatype Status = PRE | DURING | POST

  /** A draft record; times are Unix milliseconds. */
  datatype Draft = Draft(
    name: string,
    startDatetime: int,
    hostBetterAuthUserId: Option<UserId>,
    status: Status,
    currentDraftPickNumber: PickNumber,
    currentPickStartTime: Option<int>)

  /** A team: one user's entry in one draft, with its 1-based position in the draft order. */
  datatype Team = Team(betterAuthUserId: UserId, draftId: DraftId, teamName: string, draftOrderNumber: int)

  /** The last heartbeat of a user on a draft page. */
  datatype PresenceEntry = PresenceEntry(draftId: DraftId, betterAuthUserId: UserId, lastSeen: int)

  /** The errors the draft mutations throw: one constructor per kind of failed check. The
      message text, which differs from one mutation to another, is not modelled. */
  datatype DraftError =
    | Unauthenticated  // no caller, or a caller without an id
    | DraftNotFound    // no draft with the given id
    | NotHost          // a host-only action by someone else
    | NotPreDraft      // starting, shuffling or joining a draft that is not in PRE
    | BeforeStartTime  // starting before the scheduled start time
    | NoTeams          // starting or shuffling a draft without teams
    | AlreadyInDraft   // joining a draft the caller already has a team in
    | NotDuring        // finishing a draft that is not in DURING
    | NotInProgress    // advancing a draft that is missing or not in DURING

  /** Total number of picks in a draft with `numTeams` teams: the last pick of round `ROUNDS`,
      so the pick after it would open round `ROUNDS + 1`. */
  function MaxPicks(numTeams: nat): (m: int)
    ensures m >= 0 && (numTeams >= 1 ==> m >= 1)
    ensures numTeams >= 1 ==> Snake.Round(m, numTeams) == ROUNDS
    ensures numTeams >= 1 ==> Snake.Round(m + 1, numTeams) == ROUNDS + 1
  {
    if numTeams >= 1 then
      Snake.PickInRound(ROUNDS, numTeams - 1, numTeams);
      Snake.PickInRound(ROUNDS + 1, 0, numTeams);
      numTeams * ROUNDS
    else 0
  }

  // ---------------------------------------------------------------------------------------
  // Selections used by the index scans

  function InDraft(d: DraftId): Team -> bool
  {
    (t: Team) => t.draftId == d
  }

  function OwnedIn(d: DraftId, u: UserId): Team -> bool
  {
    (t: Team) => t.draftId == d && t.betterAuthUserId == u
  }

  function OwnedBy(u: UserId): Team -> bool
  {
    (t: Team) => t.betterAuthUserId == u
  }

  function HostedBy(u: UserId): Draft -> bool
  {
    (dr: Draft) => dr.hostBetterAuthUserId == Some(u)
  }

  function PresenceOf(d: DraftId, u: UserId): PresenceEntry -> bool
  {
    (e: PresenceEntry) => e.draftId == d && e.betterAuthUserId == u
  }

  function OnlineIn(d: DraftId, now: int): PresenceEntry -> bool
  {
    (e: PresenceEntry) => e.draftId == d && now - e.lastSeen < ONLINE_THRESHOLD
  }

  // ---------------------------------------------------------------------------------------
  // Teams of a draft

  /** The teams of draft `d` in the order the `draftId` index returns them (creation order). */
  function TeamsOf(teams: map<TeamId, Team>, bound: nat, d: DraftId): (ids: seq<TeamId>)
    ensures forall i :: 0 <= i < |ids| ==> ids[i] in teams && ids[i] < bound && teams[ids[i]].draftId == d
    ensures forall t :: t in teams && t < bound && teams[t].draftId == d ==> t in ids
  {
    IdsWhere(teams, InDraft(d), bound)
  }

  /** The ids of the teams of draft `d`, as a set. */
  ghost function TeamsIn(teams: map<TeamId, Team>, bound: nat, d: DraftId): set<TeamId>
  {
    set t | t in teams && t < bound && teams[t].draftId == d
  }

  /** The first team of user `u` in draft `d`, if any. */
  function FindUserTeam(teams: map<TeamId, Team>, bound: nat, d: DraftId, u: UserId): (r: Option<TeamId>)
    ensures r.Some? ==> r.value in teams && r.value < bound
                        && teams[r.value].draftId == d && teams[r.value].betterAuthUserId == u
    ensures r.None? <==> forall t :: t in teams && t < bound ==> !(teams[t].draftId == d && teams[t].betterAuthUserId == u)
  {
    var ids := IdsWhere(teams, OwnedIn(d, u), bound);
    if ids == [] then None else Some(ids[0])
  }

  ghost predicate AllIn(teams: map<TeamId, Team>, s: seq<TeamId>)
  {
    forall i :: 0 <= i < |s| ==> s[i] in teams
  }

  ghost predicate SortedByOrder(teams: map<TeamId, Team>, s: seq<TeamId>)
    requires AllIn(teams, s)
  {
    forall i, j :: 0 <= i < j < |s| ==> teams[s[i]].draftOrderNumber <= teams[s[j]].draftOrderNumber
  }

  /** Insert `id` into a sequence sorted by draft order, before the first team whose order is
      not smaller (ties keep the inserted team first, so the sort is stable). */
  function InsertByOrder(teams: map<TeamId, Team>, id: TeamId, sorted: seq<TeamId>): (r: seq<TeamId>)
    requires id in teams && AllIn(teams, sorted)
    ensures AllIn(teams, r)
    ensures multiset(r) == multiset(sorted) + multiset{id}
    ensures forall k :: 0 <= k < |r| ==> r[k] == id || r[k] in sorted
    decreases |sorted|
  {
    if sorted == [] || teams[id].draftOrderNumber <= teams[sorted[0]].draftOrderNumber then
      [id] + sorted
    else
      assert sorted == [sorted[0]] + sorted[1..];
      [sorted[0]] + InsertByOrder(teams, id, sorted[1..])
  }

  /** Inserting into a sorted sequence keeps it sorted. */
  lemma {:induction false} InsertKeepsSorted(teams: map<TeamId, Team>, id: TeamId, sorted: seq<TeamId>)
    requires id in teams && AllIn(teams, sorted) && SortedByOrder(teams, sorted)
    ensures SortedByOrder(teams, InsertByOrder(teams, id, sorted))
    decreases |sorted|
  {
    if sorted != [] && teams[id].draftOrderNumber > teams[sorted[0]].draftOrderNumber {
      var rest := InsertByOrder(teams, id, sorted[1..]);
      InsertKeepsSorted(teams, id, sorted[1..]);
      forall k | 0 <= k < |rest|
        ensures teams[sorted[0]].draftOrderNumber <= teams[rest[k]].draftOrderNumber
      {
        if rest[k] != id {
          var j :| 0 <= j < |sorted[1..]| && sorted[1..][j] == rest[k];
          assert sorted[j + 1] == rest[k];
        }
      }
    }
  }

  /** A stable insertion sort of team ids by `draftOrderNumber`. */
  function SortByOrder(teams: map<TeamId, Team>, s: seq<TeamId>): (r: seq<TeamId>)
    requires AllIn(teams, s)
    ensures AllIn(teams, r) && SortedByOrder(teams, r)
    ensures multiset(r) == multiset(s) && |r| == |s|
    decreases |s|
  {
    if s == [] then []
    else
      assert s == [s[0]] + s[1..];
      var rest := SortByOrder(teams, s[1..]);
      InsertKeepsSorted(teams, s[0], rest);
      InsertByOrder(teams, s[0], rest)
  }

  /** `getDraftTeams`: the teams of a draft sorted by draft order. */
  function GetDraftTeams(teams: map<TeamId, Team>, bound: nat, d: DraftId): (r: seq<TeamId>)
    ensures AllIn(teams, r) && SortedByOrder(teams, r)
    ensures multiset(r) == multiset(TeamsOf(teams, bound, d)) && |r| == |TeamsOf(teams, bound, d)|
  {
    SortByOrder(teams, TeamsOf(teams, bound, d))
  }

  // ---------------------------------------------------------------------------------------
  // Store invariants

  /** At most one team per (draft, user). */
  ghost predicate OneTeamPerUser(teams: map<TeamId, Team>)
  {
    forall t1, t2 :: t1 in teams && t2 in teams && t1 != t2 && teams[t1].draftId == teams[t2].draftId
      ==> teams[t1].betterAuthUserId != teams[t2].betterAuthUserId
  }

  /** The draft-order numbers of the N teams `ids` are distinct and lie in 1..N. */
  ghost predicate DenseIn(teams: map<TeamId, Team>, ids: seq<TeamId>)
  {
    && (forall i :: 0 <= i < |ids| ==> ids[i] in teams && 1 <= teams[ids[i]].draftOrderNumber <= |ids|)
    && (forall i, j :: 0 <= i < j < |ids| && ids[i] in teams && ids[j] in teams ==>
          teams[ids[i]].draftOrderNumber != teams[ids[j]].draftOrderNumber)
  }

  /** The draft-order numbers of draft `d` are dense. */
  ghost predicate DenseDraft(teams: map<TeamId, Team>, bound: nat, d: DraftId)
  {
    DenseIn(teams, TeamsOf(teams, bound, d))
  }

  /** Every draft's draft-order numbers are dense. */
  ghost predicate DenseOrders(teams: map<TeamId, Team>, bound: nat)
  {
    forall d :: DenseDraft(teams, bound, d)
  }

  /** At most one presence entry per (draft, user). */
  ghost predicate OnePresencePerUser(presence: map<PresenceId, PresenceEntry>)
  {
    forall p1, p2 :: p1 in presence && p2 in presence && p1 != p2 && presence[p1].draftId == presence[p2].draftId
      ==> presence[p1].betterAuthUserId != presence[p2].betterAuthUserId
  }

  /** A draft that has not started is still at pick 1 with no pick clock. */
  ghost predicate PreDraftsUnstarted(drafts: map<DraftId, Draft>)
  {
    forall d :: d in drafts && drafts[d].status == PRE ==>
      drafts[d].currentDraftPickNumber == 1 && drafts[d].currentPickStartTime.None?
  }

  ghost predicate StoreInvariant(drafts: map<DraftId, Draft>, teams: map<TeamId, Team>,
                                 presence: map<PresenceId, PresenceEntry>,
                                 nextDraftId: nat, nextTeamId: nat, nextPresenceId: nat)
  {
    && KeysBelow(drafts, nextDraftId)
    && KeysBelow(teams, nextTeamId)
    && KeysBelow(presence, nextPresenceId)
    && (forall t :: t in teams ==> teams[t].draftId in drafts)
    && OneTeamPerUser(teams)
    && DenseOrders(teams, nextTeamId)
    && OnePresencePerUser(presence)
    && PreDraftsUnstarted(drafts)
  }

  function Rank(s: Status): int
  {
    match s
    case PRE => 0
    case DURING => 1
    case POST => 2
  }

  /** How one draft record may change in one mutation: its name, start time and host never
      change, the status only moves forward along PRE, DURING, POST, the pick number never
      decreases, and a finished draft is frozen. */
  ghost predicate DraftEvolves(before: Draft, after: Draft)
  {
    && after.name == before.name
    && after.startDatetime == before.startDatetime
    && after.hostBetterAuthUserId == before.hostBetterAuthUserId
    && Rank(before.status) <= Rank(after.status)
    && before.currentDraftPickNumber <= after.currentDraftPickNumber
    && (before.status == POST ==> after == before)
  }

  /** The relation is a preorder: reflexive and transitive. */
  lemma DraftEvolvesTransitive(a: Draft, b: Draft, c: Draft)
    requires DraftEvolves(a, b) && DraftEvolves(b, c)
    ensures DraftEvolves(a, c) && DraftEvolves(a, a)
  {
  }

  /** Any number of mutations compose: along a history of records in which every step is an
      allowed change, the last record is an allowed change of the first. */
  lemma {:induction false} DraftHistory(h: seq<Draft>)
    requires |h| >= 1
    requires forall i :: 0 <= i < |h| - 1 ==> DraftEvolves(h[i], h[i + 1])
    ensures DraftEvolves(h[0], h[|h| - 1])
  {
    if |h| == 1 {
      DraftEvolvesTransitive(h[0], h[0], h[0]);
    } else {
      DraftHistory(h[..|h| - 1]);
      DraftEvolvesTransitive(h[0], h[|h| - 2], h[|h| - 1]);
    }
  }

  // ---------------------------------------------------------------------------------------
  // Dense draft orders

  lemma {:induction false} OrdersAtLeast(keys: seq<int>, k: nat)
    requires forall i :: 0 <= i < |keys| ==> 1 <= keys[i]
    requires forall i :: 0 <= i < |keys| - 1 ==> keys[i] < keys[i + 1]
    requires k < |keys|
    ensures keys[k] >= k + 1
  {
    if k > 0 {
      OrdersAtLeast(keys, k - 1);
    }
  }

  lemma {:induction false} OrdersAtMost(keys: seq<int>, k: nat)
    requires forall i :: 0 <= i < |keys| ==> keys[i] <= |keys|
    requires forall i :: 0 <= i < |keys| - 1 ==> keys[i] < keys[i + 1]
    requires k < |keys|
    ensures keys[k] <= k + 1
    decreases |keys| - k
  {
    if k < |keys| - 1 {
      OrdersAtMost(keys, k + 1);
    }
  }

  /** The sorted teams of a draft are teams of that draft, each once. */
  lemma SortedTeamsOfDraft(teams: map<TeamId, Team>, bound: nat, d: DraftId)
    ensures var s := GetDraftTeams(teams, bound, d);
            Distinct(s) && forall k :: 0 <= k < |s| ==> s[k] in TeamsOf(teams, bound, d)
  {
    var ids := TeamsOf(teams, bound, d);
    var s := GetDraftTeams(teams, bound, d);
    IdsWhereIncreasing(teams, InDraft(d), bound);
    Shuffle.PermutationKeepsDistinct(ids, s);
    forall k | 0 <= k < |s|
      ensures s[k] in ids
    {
      Shuffle.SameElements(s, ids, s[k]);
    }
  }

  /** With dense orders, the k-th team of `getDraftTeams` has draft-order number k + 1: the
      numbers of a draft's N teams are exactly 1..N. */
  lemma ConsecutiveOrders(teams: map<TeamId, Team>, bound: nat, d: DraftId)
    requires KeysBelow(teams, bound) && DenseDraft(teams, bound, d)
    ensures forall k :: 0 <= k < |GetDraftTeams(teams, bound, d)| ==>
              teams[GetDraftTeams(teams, bound, d)[k]].draftOrderNumber == k + 1
  {
    var s := GetDraftTeams(teams, bound, d);
    SortedTeamsOfDraft(teams, bound, d);
    var ids := TeamsOf(teams, bound, d);
    assert DenseDraft(teams, bound, d);
    var keys := seq(|s|, k requires 0 <= k < |s| => teams[s[k]].draftOrderNumber);
    forall k | 0 <= k < |s|
      ensures 1 <= keys[k] <= |s|
    {
      var i :| 0 <= i < |ids| && ids[i] == s[k];
    }
    forall k | 0 <= k < |s| - 1
      ensures keys[k] < keys[k + 1]
    {
      var i :| 0 <= i < |ids| && ids[i] == s[k];
      var j :| 0 <= j < |ids| && ids[j] == s[k + 1];
      assert i != j;
      assert keys[k] != keys[k + 1];
      assert keys[k] <= keys[k + 1];
    }
    forall k | 0 <= k < |s|
      ensures teams[s[k]].draftOrderNumber == k + 1
    {
      OrdersAtLeast(keys, k);
      OrdersAtMost(keys, k);
      assert keys[k] == teams[s[k]].draftOrderNumber;
    }
  }

  // ---------------------------------------------------------------------------------------
  // Queries

  /** The length of the scan is the number of teams in the draft. */
  lemma TeamCountIsCardinality(teams: map<TeamId, Team>, bound: nat, d: DraftId)
    ensures |TeamsOf(teams, bound, d)| == |TeamsIn(teams, bound, d)|
  {
    var ids := TeamsOf(teams, bound, d);
    IdsWhereIncreasing(teams, InDraft(d), bound);
    DistinctSize(ids);
    forall t | t in ids
      ensures t in TeamsIn(teams, bound, d)
    {
      var i :| 0 <= i < |ids| && ids[i] == t;
    }
    assert Elements(ids) == TeamsIn(teams, bound, d);
  }

  datatype DraftWithTeamCount = DraftWithTeamCount(draft: Draft, teamCount: nat)

  /** `getDraftWithTeamCount`: the draft and the number of its teams, or nothing when no id is
      given or the draft does not exist. */
  function GetDraftWithTeamCount(drafts: map<DraftId, Draft>, teams: map<TeamId, Team>, bound: nat,
                                 draftId: Option<DraftId>): (r: Option<DraftWithTeamCount>)
    ensures r.None? <==> draftId.None? || draftId.value !in drafts
    ensures r.Some? ==> r.value.draft == drafts[draftId.value]
                        && r.value.teamCount == |TeamsIn(teams, bound, draftId.value)|
  {
    if draftId.None? || draftId.value !in drafts then None
    else
      var d := draftId.value;
      TeamCountIsCardinality(teams, bound, d);
      Some(DraftWithTeamCount(drafts[d], |TeamsOf(teams, bound, d)|))
  }

  /** `isUserInDraft`: whether the caller has a team in the given draft. */
  function IsUserInDraft(teams: map<TeamId, Team>, bound: nat, draftId: Option<DraftId>,
                         caller: Option<AuthUser>): (r: bool)
    ensures r <==> draftId.Some? && AuthId(caller).Some? &&
                   exists t :: t in teams && t < bound && teams[t].draftId == draftId.value
                               && teams[t].betterAuthUserId == AuthId(caller).value
  {
    draftId.Some? && AuthId(caller).Some?
    && FindUserTeam(teams, bound, draftId.value, AuthId(caller).value).Some?
  }

  /** Keep the first occurrence of every id, in order. */
  function Dedup(s: seq<nat>): (r: seq<nat>)
    ensures Distinct(r)
    ensures forall x :: x in r <==> x in s
    decreases |s|
  {
    if s == [] then []
    else
      var rest := Dedup(s[..|s| - 1]);
      assert s == s[..|s| - 1] + [s[|s| - 1]];
      if s[|s| - 1] in rest then rest else rest + [s[|s| - 1]]
  }

  /** The existing drafts that the given teams belong to, in the order of the teams. */
  function DraftsOfTeams(drafts: map<DraftId, Draft>, teams: map<TeamId, Team>, ids: seq<TeamId>): (r: seq<DraftId>)
    requires AllIn(teams, ids)
    ensures forall x :: x in r <==> x in drafts && exists t :: t in ids && teams[t].draftId == x
    decreases |ids|
  {
    if ids == [] then []
    else
      assert ids == [ids[0]] + ids[1..];
      (if teams[ids[0]].draftId in drafts then [teams[ids[0]].draftId] else [])
      + DraftsOfTeams(drafts, teams, ids[1..])
  }

  /** The drafts user `u` hosts followed by the drafts they have a team in, without repeats:
      exactly the existing drafts the user hosts or plays in. */
  function UserDraftIds(drafts: map<DraftId, Draft>, teams: map<TeamId, Team>, draftBound: nat,
                        teamBound: nat, u: UserId): (ids: seq<DraftId>)
    ensures Distinct(ids)
    ensures forall x :: x in ids <==>
              x in drafts && ((x < draftBound && drafts[x].hostBetterAuthUserId == Some(u))
                              || exists t :: t in teams && t < teamBound && teams[t].draftId == x
                                             && teams[t].betterAuthUserId == u)
  {
    var hosted := IdsWhere(drafts, HostedBy(u), draftBound);
    var mine := IdsWhere(teams, OwnedBy(u), teamBound);
    var participating := DraftsOfTeams(drafts, teams, mine);
    var ids := Dedup(hosted + participating);
    IdsWhereMembers(drafts, HostedBy(u), draftBound);
    IdsWhereMembers(teams, OwnedBy(u), teamBound);
    ids
  }

  datatype UserDraft = UserDraft(id: DraftId, draft: Draft, teamCount: nat, userTeamName: Option<string>)

  /** The name of the first team of user `u` in draft `d`, if any. */
  function UserTeamName(teams: map<TeamId, Team>, bound: nat, d: DraftId, u: UserId): (r: Option<string>)
    ensures r.Some? <==> exists t :: t in teams && t < bound && teams[t].draftId == d && teams[t].betterAuthUserId == u
    ensures r.Some? ==> exists t :: t in teams && t < bound && teams[t].draftId == d
                                    && teams[t].betterAuthUserId == u && teams[t].teamName == r.value
  {
    match FindUserTeam(teams, bound, d, u)
    case Some(t) => Some(teams[t].teamName)
    case None => None
  }

  /** The entry of `getUserDrafts` for draft `id`. */
  function UserDraftEntry(drafts: map<DraftId, Draft>, teams: map<TeamId, Team>, teamBound: nat, u: UserId,
                          id: DraftId): (e: UserDraft)
    requires id in drafts
    ensures e.id == id && e.draft == drafts[id]
    ensures e.teamCount == |TeamsIn(teams, teamBound, id)|
    ensures e.userTeamName.Some? <==>
              exists t :: t in teams && t < teamBound && teams[t].draftId == id && teams[t].betterAuthUserId == u
    ensures e.userTeamName.Some? ==>
              exists t :: t in teams && t < teamBound && teams[t].draftId == id && teams[t].betterAuthUserId == u
                          && teams[t].teamName == e.userTeamName.value
  {
    TeamCountIsCardinality(teams, teamBound, id);
    UserDraft(id, drafts[id], |TeamsOf(teams, teamBound, id)|, UserTeamName(teams, teamBound, id, u))
  }

  /** `getUserDrafts`: for every draft the caller hosts or has a team in, in the order of
      `UserDraftIds`, the draft with its team count and the caller's team name; nothing for an
      unauthenticated caller. */
  function GetUserDrafts(drafts: map<DraftId, Draft>, teams: map<TeamId, Team>, draftBound: nat,
                         teamBound: nat, caller: Option<AuthUser>): (r: seq<UserDraft>)
    ensures AuthId(caller).None? ==> r == []
    ensures AuthId(caller).Some? ==>
              var ids := UserDraftIds(drafts, teams, draftBound, teamBound, AuthId(caller).value);
              |r| == |ids| && forall i :: 0 <= i < |r| ==> r[i] == UserDraftEntry(drafts, teams, teamBound, AuthId(caller).value, ids[i])
  {
    if AuthId(caller).None? then []
    else
      var u := AuthId(caller).value;
      var ids := UserDraftIds(drafts, teams, draftBound, teamBound, u);
      seq(|ids|, i requires 0 <= i < |ids| => UserDraftEntry(drafts, teams, teamBound, u, ids[i]))
  }

  /** Every draft the caller hosts or plays in is listed exactly once, and nothing else. */
  lemma UserDraftsListed(drafts: map<DraftId, Draft>, teams: map<TeamId, Team>, draftBound: nat,
                         teamBound: nat, caller: Option<AuthUser>)
    requires AuthId(caller).Some?
    ensures var r := GetUserDrafts(drafts, teams, draftBound, teamBound, caller);
            var u := AuthId(caller).value;
            && (forall i, j :: 0 <= i < j < |r| ==> r[i].id != r[j].id)
            && (forall d :: (exists i :: 0 <= i < |r| && r[i].id == d) <==>
                  d in drafts && ((d < draftBound && drafts[d].hostBetterAuthUserId == Some(u))
                                  || exists t :: t in teams && t < teamBound && teams[t].draftId == d
                                                 && teams[t].betterAuthUserId == u))
  {
    var r := GetUserDrafts(drafts, teams, draftBound, teamBound, caller);
    var ids := UserDraftIds(drafts, teams, draftBound, teamBound, AuthId(caller).value);
    assert forall i :: 0 <= i < |r| ==> r[i].id == ids[i];
    forall d | d in ids
      ensures exists i :: 0 <= i < |r| && r[i].id == d
    {
      var i :| 0 <= i < |ids| && ids[i] == d;
      assert r[i].id == d;
    }
  }

  datatype CurrentPick = CurrentPick(pickNumber: PickNumber, round: int, team: TeamId, startTime: int)

  /** `getCurrentPick`: nothing unless the draft exists, is DURING and has a team; otherwise
      the pick number, its round, the team of the draft on the clock and the pick's start
      time (the current time when none, or zero, is stored). */
  function GetCurrentPick(drafts: map<DraftId, Draft>, teams: map<TeamId, Team>, bound: nat,
                          d: DraftId, now: int): (r: Option<CurrentPick>)
    ensures r.Some? <==> d in drafts && drafts[d].status == DURING && |TeamsOf(teams, bound, d)| > 0
    ensures r.Some? ==>
              var n := |TeamsOf(teams, bound, d)|;
              var stored := drafts[d].currentPickStartTime;
              && r.value.pickNumber == drafts[d].currentDraftPickNumber
              && r.value.round >= 1
              && (r.value.round - 1) * n < r.value.pickNumber <= r.value.round * n
              && r.value.team in TeamsOf(teams, bound, d)
              && r.value.startTime == if stored.Some? && stored.value != 0 then stored.value else now
  {
    if d !in drafts || drafts[d].status != DURING then None
    else
      var sorted := GetDraftTeams(teams, bound, d);
      if |sorted| == 0 then None
      else
        var n := |sorted|;
        var pick := drafts[d].currentDraftPickNumber;
        var stored := drafts[d].currentPickStartTime;
        var i := Snake.TeamIndex(pick, n);
        Shuffle.SameElements(sorted, TeamsOf(teams, bound, d), sorted[i]);
        Some(CurrentPick(pick, Snake.Round(pick, n), sorted[i],
                         if stored.Some? && stored.value != 0 then stored.value else now))
  }

  /** With dense orders, the team on the clock is the one whose draft-order number is the
      snake resolver's index plus one. */
  lemma OnTheClock(drafts: map<DraftId, Draft>, teams: map<TeamId, Team>, bound: nat, d: DraftId, now: int)
    requires KeysBelow(teams, bound) && DenseDraft(teams, bound, d)
    requires d in drafts && drafts[d].status == DURING && |TeamsOf(teams, bound, d)| > 0
    ensures GetCurrentPick(drafts, teams, bound, d, now).Some?
    ensures var c := GetCurrentPick(drafts, teams, bound, d, now).value;
            c.team in teams && teams[c.team].draftId == d
            && teams[c.team].draftOrderNumber
               == Snake.TeamIndex(c.pickNumber, |TeamsOf(teams, bound, d)|) + 1
  {
    ConsecutiveOrders(teams, bound, d);
  }

  /** The first presence entry of user `u` on draft `d`, if any. */
  function FindPresence(presence: map<PresenceId, PresenceEntry>, bound: nat, d: DraftId, u: UserId): (r: Option<PresenceId>)
    ensures r.Some? ==> r.value in presence && r.value < bound
                        && presence[r.value].draftId == d && presence[r.value].betterAuthUserId == u
    ensures r.None? <==> forall p :: p in presence && p < bound ==>
                           !(presence[p].draftId == d && presence[p].betterAuthUserId == u)
  {
    var ids := IdsWhere(presence, PresenceOf(d, u), bound);
    if ids == [] then None else Some(ids[0])
  }

  /** `getOnlineUsers`: the users of the draft whose last heartbeat is under 30 s old. */
  function GetOnlineUsers(presence: map<PresenceId, PresenceEntry>, bound: nat, d: DraftId, now: int): (users: seq<UserId>)
    ensures forall u :: u in users <==>
              exists p :: p in presence && p < bound && presence[p].draftId == d
                          && presence[p].betterAuthUserId == u && now - presence[p].lastSeen < ONLINE_THRESHOLD
  {
    var ids := IdsWhere(presence, OnlineIn(d, now), bound);
    var users := seq(|ids|, i requires 0 <= i < |ids| => presence[ids[i]].betterAuthUserId);
    assert forall p :: p in presence && p < bound && OnlineIn(d, now)(presence[p]) ==> presence[p].betterAuthUserId in users by {
      forall p | p in presence && p < bound && OnlineIn(d, now)(presence[p])
        ensures presence[p].betterAuthUserId in users
      {
        var i :| 0 <= i < |ids| && ids[i] == p;
        assert users[i] == presence[p].betterAuthUserId;
      }
    }
    users
  }

  /** With one entry per (draft, user), nobody is reported online twice. */
  lemma OnlineUsersDistinct(presence: map<PresenceId, PresenceEntry>, bound: nat, d: DraftId, now: int)
    requires OnePresencePerUser(presence)
    ensures Distinct(GetOnlineUsers(presence, bound, d, now))
  {
    var ids := IdsWhere(presence, OnlineIn(d, now), bound);
    IdsWhereIncreasing(presence, OnlineIn(d, now), bound);
    assert forall i, j :: 0 <= i < j < |ids| ==> ids[i] != ids[j];
  }

  // ---------------------------------------------------------------------------------------
  // Guards

  /** The host check of the host-only mutations: the caller is authenticated and is the
      recorded host of an existing draft. */
  function IsHost(draft: Draft, u: UserId): (r: bool)
    ensures r <==> u != "" && draft.hostBetterAuthUserId == Some(u)
  {
    draft.hostBetterAuthUserId.Some? && draft.hostBetterAuthUserId.value != ""
    && draft.hostBetterAuthUserId.value == u
  }

  /** The checks that start `startDraft`, `randomizeDraftTeams` and `finishDraft`, in order:
      authenticated, draft exists, caller is its host. */
  function HostCheck(drafts: map<DraftId, Draft>, caller: Option<AuthUser>, d: DraftId): (r: Outcome<DraftError>)
    ensures r.Pass? <==> AuthId(caller).Some? && d in drafts && IsHost(drafts[d], AuthId(caller).value)
    ensures AuthId(caller).None? ==> r == Fail(Unauthenticated)
    ensures AuthId(caller).Some? && d !in drafts ==> r == Fail(DraftNotFound)
    ensures AuthId(caller).Some? && d in drafts && !IsHost(drafts[d], AuthId(caller).value) ==> r == Fail(NotHost)
  {
    if AuthId(caller).None? then Fail(Unauthenticated)
    else if d !in drafts then Fail(DraftNotFound)
    else if !IsHost(drafts[d], AuthId(caller).value) then Fail(NotHost)
    else Pass
  }

  /** The checks of `joinDraft` as the code makes them, in order: authenticated, draft
      exists, caller has no team in it yet. The draft's status is never looked at, so a team
      can join a draft that is already under way or finished. */
  function JoinCheckAsWritten(drafts: map<DraftId, Draft>, teams: map<TeamId, Team>, bound: nat,
                              caller: Option<AuthUser>, d: DraftId): (r: Outcome<DraftError>)
    ensures r.Pass? <==> AuthId(caller).Some? && d in drafts
                         && FindUserTeam(teams, bound, d, AuthId(caller).value).None?
    ensures AuthId(caller).None? ==> r == Fail(Unauthenticated)
    ensures AuthId(caller).Some? && d !in drafts ==> r == Fail(DraftNotFound)
    ensures (AuthId(caller).Some? && d in drafts && FindUserTeam(teams, bound, d, AuthId(caller).value).Some?)
              ==> r == Fail(AlreadyInDraft)
  {
    if AuthId(caller).None? then Fail(Unauthenticated)
    else if d !in drafts then Fail(DraftNotFound)
    else if FindUserTeam(teams, bound, d, AuthId(caller).value).Some? then Fail(AlreadyInDraft)
    else Pass
  }

  /** The checks of `joinDraft` with the status check the draft lifecycle calls for: the
      roster is fixed once the draft has started, so joining a draft that is not in PRE fails
      after the existence check. */
  function JoinCheck(drafts: map<DraftId, Draft>, teams: map<TeamId, Team>, bound: nat,
                     caller: Option<AuthUser>, d: DraftId): (r: Outcome<DraftError>)
    ensures r.Pass? <==> AuthId(caller).Some? && d in drafts && drafts[d].status == PRE
                         && FindUserTeam(teams, bound, d, AuthId(caller).value).None?
    ensures AuthId(caller).None? ==> r == Fail(Unauthenticated)
    ensures AuthId(caller).Some? && d !in drafts ==> r == Fail(DraftNotFound)
    ensures AuthId(caller).Some? && d in drafts && drafts[d].status != PRE ==> r == Fail(NotPreDraft)
    ensures (AuthId(caller).Some? && d in drafts && drafts[d].status == PRE
             && FindUserTeam(teams, bound, d, AuthId(caller).value).Some?) ==> r == Fail(AlreadyInDraft)
  {
    if AuthId(caller).None? then Fail(Unauthenticated)
    else if d !in drafts then Fail(DraftNotFound)
    else if drafts[d].status != PRE then Fail(NotPreDraft)
    else if FindUserTeam(teams, bound, d, AuthId(caller).value).Some? then Fail(AlreadyInDraft)
    else Pass
  }

  /** The name of the host's team: the user's name, or "Host" when it has none, followed by
      "'s Team". */
  function HostTeamName(user: AuthUser): (r: string)
    ensures |r| >= 7 && r[|r| - 7..] == "'s Team"
    ensures user.name != "" ==> r[..|r| - 7] == user.name
    ensures user.name == "" ==> r[..|r| - 7] == "Host"
  {
    (if user.name == "" then "Host" else user.name) + "'s Team"
  }

  // ---------------------------------------------------------------------------------------
  // What the mutations preserve

  /** Every existing draft evolves as `DraftEvolves` allows, and none disappears. */
  ghost predicate DraftsEvolve(before: map<DraftId, Draft>, after: map<DraftId, Draft>)
  {
    forall d :: d in before ==> d in after && DraftEvolves(before[d], after[d])
  }

  /** Inserting a team under the next fresh id appends it to the scan of its own draft. */
  lemma TeamsOfAfterInsert(teams: map<TeamId, Team>, bound: nat, team: Team, d: DraftId)
    requires KeysBelow(teams, bound)
    ensures TeamsOf(teams[bound := team], bound + 1, d)
            == TeamsOf(teams, bound, d) + (if team.draftId == d then [bound] else [])
  {
    IdsWhereInsert(teams, InDraft(d), bound, team);
  }

  /** A team that takes the next draft-order number of its draft keeps that draft's orders
      dense, and the other drafts' orders as they were. */
  lemma InsertTeamKeepsDenseIn(teams: map<TeamId, Team>, bound: nat, team: Team, d: DraftId)
    requires KeysBelow(teams, bound) && DenseDraft(teams, bound, d)
    requires team.draftId == d ==> team.draftOrderNumber == |TeamsOf(teams, bound, d)| + 1
    ensures DenseDraft(teams[bound := team], bound + 1, d)
  {
    var ids := TeamsOf(teams, bound, d);
    TeamsOfAfterInsert(teams, bound, team, d);
    forall i | 0 <= i < |ids|
      ensures ids[i] in teams[bound := team] && teams[bound := team][ids[i]] == teams[ids[i]]
    {
    }
  }

  lemma InsertTeamKeepsDense(teams: map<TeamId, Team>, bound: nat, team: Team)
    requires KeysBelow(teams, bound) && DenseOrders(teams, bound)
    requires team.draftOrderNumber == |TeamsOf(teams, bound, team.draftId)| + 1
    ensures DenseOrders(teams[bound := team], bound + 1)
  {
    var teams', bound' := teams[bound := team], bound + 1;
    forall d
      ensures DenseDraft(teams', bound', d)
    {
      InsertTeamKeepsDenseIn(teams, bound, team, d);
    }
  }

  /** `teams` after the first `k` teams of `order` have been given the draft orders 1..k, one
      patch at a time. */
  ghost function Renumbered(teams: map<TeamId, Team>, order: seq<TeamId>, k: nat): (r: map<TeamId, Team>)
    requires k <= |order|
    requires forall i :: 0 <= i < |order| ==> order[i] in teams
    ensures r.Keys == teams.Keys
    decreases k
  {
    if k == 0 then teams
    else
      var prev := Renumbered(teams, order, k - 1);
      prev[order[k - 1] := prev[order[k - 1]].(draftOrderNumber := k)]
  }

  /** Renumbering changes no team's draft, user or name. */
  lemma {:induction false} RenumberedKeepsRecords(teams: map<TeamId, Team>, order: seq<TeamId>, k: nat)
    requires k <= |order|
    requires forall i :: 0 <= i < |order| ==> order[i] in teams
    ensures var r := Renumbered(teams, order, k);
            forall t :: t in r ==> r[t] == teams[t].(draftOrderNumber := r[t].draftOrderNumber)
    decreases k
  {
    if k > 0 {
      RenumberedKeepsRecords(teams, order, k - 1);
    }
  }

  /** A team outside the first `k` listed ones is untouched. */
  lemma {:induction false} RenumberedUntouched(teams: map<TeamId, Team>, order: seq<TeamId>, k: nat)
    requires k <= |order|
    requires forall i :: 0 <= i < |order| ==> order[i] in teams
    ensures var r := Renumbered(teams, order, k);
            forall t :: t in teams && t !in order[..k] ==> r[t] == teams[t]
    decreases k
  {
    if k > 0 {
      RenumberedUntouched(teams, order, k - 1);
      assert order[..k] == order[..k - 1] + [order[k - 1]];
    }
  }

  /** With no team listed twice, the first `k` listed teams carry the orders 1..k. */
  lemma {:induction false} RenumberedOrders(teams: map<TeamId, Team>, order: seq<TeamId>, k: nat)
    requires k <= |order|
    requires forall i :: 0 <= i < |order| ==> order[i] in teams
    requires Distinct(order)
    ensures var r := Renumbered(teams, order, k);
            forall m :: 0 <= m < k ==> r[order[m]].draftOrderNumber == m + 1
    decreases k
  {
    if k > 0 {
      RenumberedOrders(teams, order, k - 1);
      var prev := Renumbered(teams, order, k - 1);
      forall m | 0 <= m < k - 1
        ensures Renumbered(teams, order, k)[order[m]] == prev[order[m]]
      {
        assert order[m] != order[k - 1];
      }
    }
  }

  /** Changing only draft-order numbers leaves every draft's scan as it was. */
  lemma RenumberKeepsScans(teams: map<TeamId, Team>, teams': map<TeamId, Team>, bound: nat)
    requires teams'.Keys == teams.Keys
    requires forall t :: t in teams ==> teams'[t].draftId == teams[t].draftId
    ensures forall d :: TeamsOf(teams', bound, d) == TeamsOf(teams, bound, d)
  {
    forall d
      ensures TeamsOf(teams', bound, d) == TeamsOf(teams, bound, d)
    {
      IdsWhereFrame(teams', InDraft(d), teams, InDraft(d), bound);
    }
  }

  /** A draft none of whose teams was renumbered keeps dense orders. */
  lemma RenumberOtherDraft(teams: map<TeamId, Team>, teams': map<TeamId, Team>, bound: nat, d': DraftId,
                           renumbered: seq<TeamId>)
    requires DenseDraft(teams, bound, d')
    requires TeamsOf(teams', bound, d') == TeamsOf(teams, bound, d')
    requires forall t :: t in teams && t !in renumbered ==> t in teams' && teams'[t] == teams[t]
    requires forall k :: 0 <= k < |renumbered| ==> renumbered[k] !in TeamsOf(teams, bound, d')
    ensures DenseDraft(teams', bound, d')
  {
    var others := TeamsOf(teams, bound, d');
    forall i | 0 <= i < |others|
      ensures others[i] in teams' && teams'[others[i]] == teams[others[i]]
    {
      assert others[i] !in renumbered;
    }
  }

  /** The renumbered draft gets the orders 1..N, one per team. */
  lemma RenumberThisDraft(teams': map<TeamId, Team>, bound: nat, d: DraftId, shuffled: seq<TeamId>)
    requires Distinct(TeamsOf(teams', bound, d))
    requires multiset(shuffled) == multiset(TeamsOf(teams', bound, d))
    requires forall k :: 0 <= k < |shuffled| ==> shuffled[k] in teams' && teams'[shuffled[k]].draftOrderNumber == k + 1
    ensures DenseDraft(teams', bound, d)
  {
    var ids := TeamsOf(teams', bound, d);
    assert |shuffled| == |ids| by {
      assert |multiset(shuffled)| == |multiset(ids)|;
    }
    forall i | 0 <= i < |ids|
      ensures exists k :: 0 <= k < |shuffled| && shuffled[k] == ids[i]
    {
      Shuffle.SameElements(ids, shuffled, ids[i]);
    }
    forall i | 0 <= i < |ids|
      ensures 1 <= teams'[ids[i]].draftOrderNumber <= |ids|
    {
      var k :| 0 <= k < |shuffled| && shuffled[k] == ids[i];
    }
    forall i, j | 0 <= i < j < |ids|
      ensures teams'[ids[i]].draftOrderNumber != teams'[ids[j]].draftOrderNumber
    {
      var ki :| 0 <= ki < |shuffled| && shuffled[ki] == ids[i];
      var kj :| 0 <= kj < |shuffled| && shuffled[kj] == ids[j];
    }
  }

  /** Renumbering the teams of draft `d` after their position in a permutation of them keeps
      the orders dense. */
  lemma RenumberKeepsDense(teams: map<TeamId, Team>, teams': map<TeamId, Team>, bound: nat, d: DraftId,
                           shuffled: seq<TeamId>)
    requires KeysBelow(teams, bound) && DenseOrders(teams, bound)
    requires teams'.Keys == teams.Keys
    requires forall t :: t in teams ==> teams'[t].draftId == teams[t].draftId
    requires multiset(shuffled) == multiset(TeamsOf(teams, bound, d))
    requires forall k :: 0 <= k < |shuffled| ==> shuffled[k] in teams' && teams'[shuffled[k]].draftOrderNumber == k + 1
    requires forall t :: t in teams && t !in shuffled ==> teams'[t] == teams[t]
    ensures DenseOrders(teams', bound)
    ensures TeamsOf(teams', bound, d) == TeamsOf(teams, bound, d)
  {
    RenumberKeepsScans(teams, teams', bound);
    IdsWhereIncreasing(teams, InDraft(d), bound);
    RenumberThisDraft(teams', bound, d, shuffled);
    forall d' | d' != d
      ensures DenseDraft(teams', bound, d')
    {
      forall k | 0 <= k < |shuffled|
        ensures shuffled[k] !in TeamsOf(teams, bound, d')
      {
        Shuffle.SameElements(shuffled, TeamsOf(teams, bound, d), shuffled[k]);
        var i :| 0 <= i < |TeamsOf(teams, bound, d)| && TeamsOf(teams, bound, d)[i] == shuffled[k];
      }
      RenumberOtherDraft(teams, teams', bound, d', shuffled);
    }
  }

  /** After the renumbering, `getDraftTeams` returns the teams in the shuffled order. */
  lemma SortedIsShuffled(teams: map<TeamId, Team>, bound: nat, d: DraftId, shuffled: seq<TeamId>)
    requires KeysBelow(teams, bound) && DenseOrders(teams, bound)
    requires multiset(shuffled) == multiset(TeamsOf(teams, bound, d))
    requires forall k :: 0 <= k < |shuffled| ==> shuffled[k] in teams && teams[shuffled[k]].draftOrderNumber == k + 1
    ensures GetDraftTeams(teams, bound, d) == shuffled
  {
    var s := GetDraftTeams(teams, bound, d);
    ConsecutiveOrders(teams, bound, d);
    SortedTeamsOfDraft(teams, bound, d);
    assert |shuffled| == |s| by {
      assert |multiset(shuffled)| == |multiset(s)|;
    }
    forall k | 0 <= k < |s|
      ensures s[k] == shuffled[k]
    {
      Shuffle.SameElements(TeamsOf(teams, bound, d), shuffled, s[k]);
      var m :| 0 <= m < |shuffled| && shuffled[m] == s[k];
    }
  }

  /** `after` is `before` with only draft-order numbers changed: the team at position k of
      `shuffled` has order k + 1, and teams outside `shuffled` are untouched. */
  ghost predicate Reordered(before: map<TeamId, Team>, after: map<TeamId, Team>, shuffled: seq<TeamId>)
  {
    && after.Keys == before.Keys
    && (forall t :: t in after ==> after[t] == before[t].(draftOrderNumber := after[t].draftOrderNumber))
    && (forall k :: 0 <= k < |shuffled| ==> shuffled[k] in after && after[shuffled[k]].draftOrderNumber == k + 1)
    && (forall t :: t in after && t !in shuffled ==> after[t] == before[t])
  }

  /** One step of each mutation keeps the store invariant: a new PRE draft under the next id. */
  lemma AddDraftPreserves(drafts: map<DraftId, Draft>, teams: map<TeamId, Team>, presence: map<PresenceId, PresenceEntry>,
                          nd: nat, nt: nat, np: nat, draft: Draft)
    requires StoreInvariant(drafts, teams, presence, nd, nt, np)
    requires draft.status == PRE && draft.currentDraftPickNumber == 1 && draft.currentPickStartTime.None?
    ensures StoreInvariant(drafts[nd := draft], teams, presence, nd + 1, nt, np)
    ensures nd !in drafts && TeamsOf(teams, nt, nd) == []
    ensures forall u :: FindUserTeam(teams, nt, nd, u).None?
  {
    assert forall t :: t in teams ==> teams[t].draftId != nd;
    IdsWhereNone(teams, InDraft(nd), nt);
  }

  /** A new team under the next id, at the next draft order of its draft, for a user without a
      team in that draft. */
  lemma AddTeamPreserves(drafts: map<DraftId, Draft>, teams: map<TeamId, Team>, presence: map<PresenceId, PresenceEntry>,
                         nd: nat, nt: nat, np: nat, team: Team)
    requires StoreInvariant(drafts, teams, presence, nd, nt, np)
    requires team.draftId in drafts
    requires FindUserTeam(teams, nt, team.draftId, team.betterAuthUserId).None?
    requires team.draftOrderNumber == |TeamsOf(teams, nt, team.draftId)| + 1
    ensures StoreInvariant(drafts, teams[nt := team], presence, nd, nt + 1, np)
    ensures TeamsOf(teams[nt := team], nt + 1, team.draftId) == TeamsOf(teams, nt, team.draftId) + [nt]
  {
    InsertTeamKeepsDense(teams, nt, team);
    TeamsOfAfterInsert(teams, nt, team, team.draftId);
  }

  /** A draft record replaced by one that still respects `PreDraftsUnstarted`. */
  lemma UpdateDraftPreserves(drafts: map<DraftId, Draft>, teams: map<TeamId, Team>, presence: map<PresenceId, PresenceEntry>,
                             nd: nat, nt: nat, np: nat, d: DraftId, draft: Draft)
    requires StoreInvariant(drafts, teams, presence, nd, nt, np)
    requires d in drafts
    requires draft.status == PRE ==> draft.currentDraftPickNumber == 1 && draft.currentPickStartTime.None?
    ensures StoreInvariant(drafts[d := draft], teams, presence, nd, nt, np)
  {
  }

  /** The teams of draft `d` renumbered after their position in a permutation of them. */
  lemma RenumberPreserves(drafts: map<DraftId, Draft>, teams: map<TeamId, Team>, teams': map<TeamId, Team>,
                          presence: map<PresenceId, PresenceEntry>, nd: nat, nt: nat, np: nat, d: DraftId,
                          shuffled: seq<TeamId>)
    requires StoreInvariant(drafts, teams, presence, nd, nt, np)
    requires teams'.Keys == teams.Keys
    requires forall t :: t in teams ==> teams'[t].draftId == teams[t].draftId
                                        && teams'[t].betterAuthUserId == teams[t].betterAuthUserId
    requires multiset(shuffled) == multiset(TeamsOf(teams, nt, d))
    requires forall k :: 0 <= k < |shuffled| ==> shuffled[k] in teams' && teams'[shuffled[k]].draftOrderNumber == k + 1
    requires forall t :: t in teams && t !in shuffled ==> teams'[t] == teams[t]
    ensures StoreInvariant(drafts, teams', presence, nd, nt, np)
    ensures TeamsOf(teams', nt, d) == TeamsOf(teams, nt, d)
    ensures GetDraftTeams(teams', nt, d) == shuffled
  {
    RenumberKeepsDense(teams, teams', nt, d, shuffled);
    SortedIsShuffled(teams', nt, d, shuffled);
  }

  /** A fresh presence entry for a (draft, user) pair that has none; it is then the one found. */
  lemma AddPresencePreserves(drafts: map<DraftId, Draft>, teams: map<TeamId, Team>, presence: map<PresenceId, PresenceEntry>,
                             nd: nat, nt: nat, np: nat, e: PresenceEntry)
    requires StoreInvariant(drafts, teams, presence, nd, nt, np)
    requires FindPresence(presence, np, e.draftId, e.betterAuthUserId).None?
    ensures StoreInvariant(drafts, teams, presence[np := e], nd, nt, np + 1)
    ensures FindPresence(presence[np := e], np + 1, e.draftId, e.betterAuthUserId) == Some(np)
  {
    IdsWhereInsert(presence, PresenceOf(e.draftId, e.betterAuthUserId), np, e);
  }

  /** A refreshed heartbeat; the entry found for its (draft, user) pair stays the same. */
  lemma TouchPresencePreserves(drafts: map<DraftId, Draft>, teams: map<TeamId, Team>, presence: map<PresenceId, PresenceEntry>,
                               nd: nat, nt: nat, np: nat, p: PresenceId, now: int)
    requires StoreInvariant(drafts, teams, presence, nd, nt, np)
    requires p in presence
    ensures StoreInvariant(drafts, teams, presence[p := presence[p].(lastSeen := now)], nd, nt, np)
    ensures var e := presence[p];
            FindPresence(presence[p := e.(lastSeen := now)], np, e.draftId, e.betterAuthUserId)
            == FindPresence(presence, np, e.draftId, e.betterAuthUserId)
  {
    var e := presence[p];
    IdsWhereFrame(presence[p := e.(lastSeen := now)], PresenceOf(e.draftId, e.betterAuthUserId),
                  presence, PresenceOf(e.draftId, e.betterAuthUserId), np);
  }

  /** Deleting the one entry of a (draft, user) pair leaves that pair with none. */
  lemma RemovePresencePreserves(drafts: map<DraftId, Draft>, teams: map<TeamId, Team>, presence: map<PresenceId, PresenceEntry>,
                                nd: nat, nt: nat, np: nat, p: PresenceId)
    requires StoreInvariant(drafts, teams, presence, nd, nt, np)
    requires p in presence
    ensures StoreInvariant(drafts, teams, presence - {p}, nd, nt, np)
    ensures FindPresence(presence - {p}, np, presence[p].draftId, presence[p].betterAuthUserId).None?
  {
    var e := presence[p];
    forall q | q in presence - {p} && q < np
      ensures !(presence[q].draftId == e.draftId && presence[q].betterAuthUserId == e.betterAuthUserId)
    {
      assert q != p;
    }
  }

  /** `create` as one step: the new draft and its host team. */
  lemma CreatePreserves(drafts: map<DraftId, Draft>, teams: map<TeamId, Team>, presence: map<PresenceId, PresenceEntry>,
                        nd: nat, nt: nat, np: nat, draft: Draft, team: Team)
    requires StoreInvariant(drafts, teams, presence, nd, nt, np)
    requires draft.status == PRE && draft.currentDraftPickNumber == 1 && draft.currentPickStartTime.None?
    requires team.draftId == nd && team.draftOrderNumber == 1
    ensures StoreInvariant(drafts[nd := draft], teams[nt := team], presence, nd + 1, nt + 1, np)
    ensures nd !in drafts
    ensures TeamsOf(teams[nt := team], nt + 1, nd) == [nt]
  {
    AddDraftPreserves(drafts, teams, presence, nd, nt, np, draft);
    AddTeamPreserves(drafts[nd := draft], teams, presence, nd + 1, nt, np, team);
  }

  /** What the code's missing status check allows. A user joins a DURING draft of N teams
      at pick N + 1, the first pick of round 2. The code's checks pass, and the new team gets
      order N + 1, which keeps the orders dense. But the draft now has N + 1 teams, so pick
      N + 1 falls in round 1. The team on the clock becomes the newcomer instead of the team
      at order N, which was due its second turn in a row. The corrected checks refuse the
      join. */
  lemma JoinMidDraftTakesPick(drafts: map<DraftId, Draft>, teams: map<TeamId, Team>, nt: nat,
                              d: DraftId, caller: Option<AuthUser>, teamName: string, now: int)
    requires KeysBelow(teams, nt) && DenseOrders(teams, nt)
    requires d in drafts && drafts[d].status == DURING
    requires AuthId(caller).Some? && FindUserTeam(teams, nt, d, AuthId(caller).value).None?
    requires |TeamsOf(teams, nt, d)| >= 1
    requires drafts[d].currentDraftPickNumber == |TeamsOf(teams, nt, d)| + 1
    ensures JoinCheckAsWritten(drafts, teams, nt, caller, d) == Pass
    ensures JoinCheck(drafts, teams, nt, caller, d) == Fail(NotPreDraft)
    ensures teams[GetCurrentPick(drafts, teams, nt, d, now).value.team].draftOrderNumber
            == |TeamsOf(teams, nt, d)|
    ensures DenseOrders(Joined(teams, nt, d, AuthId(caller).value, teamName), nt + 1)
    ensures |TeamsOf(Joined(teams, nt, d, AuthId(caller).value, teamName), nt + 1, d)| == |TeamsOf(teams, nt, d)| + 1
    ensures GetCurrentPick(drafts, Joined(teams, nt, d, AuthId(caller).value, teamName), nt + 1, d, now).value.team == nt
  {
    var team := Team(AuthId(caller).value, d, teamName, |TeamsOf(teams, nt, d)| + 1);
    InsertTeamKeepsDense(teams, nt, team);
    TeamsOfAfterInsert(teams, nt, team, d);
    ClockBeforeJoin(drafts, teams, nt, d, now);
    ClockAfterJoin(drafts, teams, nt, d, team, now);
  }

  /** The team table after `joinDraft` adds user `u`'s team to draft `d` under id `nt`. */
  function Joined(teams: map<TeamId, Team>, nt: nat, d: DraftId, u: UserId, teamName: string): (r: map<TeamId, Team>)
    ensures r.Keys == teams.Keys + {nt}
    ensures r[nt] == Team(u, d, teamName, |TeamsOf(teams, nt, d)| + 1)
    ensures forall t :: t in teams && t != nt ==> r[t] == teams[t]
  {
    teams[nt := Team(u, d, teamName, |TeamsOf(teams, nt, d)| + 1)]
  }

  /** At pick N + 1 of a DURING draft with N teams, the team at order N is on the clock. */
  lemma ClockBeforeJoin(drafts: map<DraftId, Draft>, teams: map<TeamId, Team>, nt: nat, d: DraftId, now: int)
    requires KeysBelow(teams, nt) && DenseDraft(teams, nt, d)
    requires d in drafts && drafts[d].status == DURING && |TeamsOf(teams, nt, d)| >= 1
    requires drafts[d].currentDraftPickNumber == |TeamsOf(teams, nt, d)| + 1
    ensures teams[GetCurrentPick(drafts, teams, nt, d, now).value.team].draftOrderNumber
            == |TeamsOf(teams, nt, d)|
  {
    var n := |TeamsOf(teams, nt, d)|;
    assert (2 - 1) * n + 0 + 1 == n + 1;
    Snake.PickInRound(2, 0, n);
    OnTheClock(drafts, teams, nt, d, now);
  }

  /** Once a team joins at order N + 1, pick N + 1 is in round 1 and the newcomer is on the
      clock. */
  lemma ClockAfterJoin(drafts: map<DraftId, Draft>, teams: map<TeamId, Team>, nt: nat, d: DraftId,
                       team: Team, now: int)
    requires KeysBelow(teams, nt) && DenseDraft(teams, nt, d)
    requires DenseDraft(teams[nt := team], nt + 1, d)
    requires team.draftId == d && team.draftOrderNumber == |TeamsOf(teams, nt, d)| + 1
    requires TeamsOf(teams[nt := team], nt + 1, d) == TeamsOf(teams, nt, d) + [nt]
    requires d in drafts && drafts[d].status == DURING
    requires drafts[d].currentDraftPickNumber == |TeamsOf(teams, nt, d)| + 1
    ensures GetCurrentPick(drafts, teams[nt := team], nt + 1, d, now).value.team == nt
  {
    var n := |TeamsOf(teams, nt, d)|;
    var t2 := teams[nt := team];
    assert KeysBelow(t2, nt + 1);
    LastPickOfFirstRound(drafts, t2, nt + 1, d, now, n);
    TopOrderIsNewTeam(teams, nt, d, team, GetCurrentPick(drafts, t2, nt + 1, d, now).value.team);
  }

  /** At pick N + 1 of a DURING draft with N + 1 teams, the team at order N + 1 is on the
      clock. */
  lemma LastPickOfFirstRound(drafts: map<DraftId, Draft>, teams: map<TeamId, Team>, bound: nat, d: DraftId,
                             now: int, n: nat)
    requires KeysBelow(teams, bound) && DenseDraft(teams, bound, d)
    requires d in drafts && drafts[d].status == DURING && |TeamsOf(teams, bound, d)| == n + 1
    requires drafts[d].currentDraftPickNumber == n + 1
    ensures var c := GetCurrentPick(drafts, teams, bound, d, now).value.team;
            c in teams && teams[c].draftId == d && teams[c].draftOrderNumber == n + 1
  {
    assert (1 - 1) * (n + 1) + n + 1 == n + 1;
    Snake.PickInRound(1, n, n + 1);
    OnTheClock(drafts, teams, bound, d, now);
  }

  /** After a team joins at order N + 1, it is the only team of the draft with that order. */
  lemma TopOrderIsNewTeam(teams: map<TeamId, Team>, nt: nat, d: DraftId, team: Team, c: TeamId)
    requires KeysBelow(teams, nt) && DenseDraft(teams, nt, d)
    requires c in teams[nt := team] && teams[nt := team][c].draftId == d
    requires teams[nt := team][c].draftOrderNumber == |TeamsOf(teams, nt, d)| + 1
    ensures c == nt
  {
  }

  /** A draft with a single team lists just that team. */
  lemma SingleTeamListed(teams: map<TeamId, Team>, bound: nat, d: DraftId, t: TeamId)
    requires TeamsOf(teams, bound, d) == [t]
    ensures GetDraftTeams(teams, bound, d) == [t]
  {
    assert GetDraftTeams(teams, bound, d) == InsertByOrder(teams, t, []);
  }

  // ---------------------------------------------------------------------------------------
  // The store

  /** The `drafts`, `draftTeams` and `draftPresence` tables, with the next fresh id of each. */
  class DraftStore {
    var drafts: map<DraftId, Draft>
    var teams: map<TeamId, Team>
    var presence: map<PresenceId, PresenceEntry>
    var nextDraftId: nat
    var nextTeamId: nat
    var nextPresenceId: nat

    ghost predicate Valid()
      reads this
    {
      StoreInvariant(drafts, teams, presence, nextDraftId, nextTeamId, nextPresenceId)
    }

    /** An empty store. */
    constructor ()
      ensures Valid()
      ensures drafts == map[] && teams == map[] && presence == map[]
    {
      drafts, teams, presence := map[], map[], map[];
      nextDraftId, nextTeamId, nextPresenceId := 0, 0, 0;
    }

    /** Inserts a new PRE draft, still at pick 1 with no pick clock, under the next draft id;
        the new draft has no teams yet. */
    method InsertDraft(draft: Draft) returns (id: DraftId)
      requires Valid()
      requires draft.status == PRE && draft.currentDraftPickNumber == 1 && draft.currentPickStartTime.None?
      modifies this
      ensures Valid()
      ensures id == old(nextDraftId) && id !in old(drafts)
      ensures drafts == old(drafts)[id := draft] && nextDraftId == old(nextDraftId) + 1
      ensures teams == old(teams) && presence == old(presence)
      ensures nextTeamId == old(nextTeamId) && nextPresenceId == old(nextPresenceId)
      ensures TeamsOf(teams, nextTeamId, id) == []
      ensures forall u :: FindUserTeam(teams, nextTeamId, id, u).None?
    {
      AddDraftPreserves(drafts, teams, presence, nextDraftId, nextTeamId, nextPresenceId, draft);
      id := nextDraftId;
      drafts := drafts[id := draft];
      nextDraftId := nextDraftId + 1;
    }

    /** Inserts a team under the next team id, for a user without a team in its draft, at the
        next draft order of that draft; the draft's team list gains it at the end. */
    method InsertTeam(team: Team) returns (id: TeamId)
      requires Valid()
      requires team.draftId in drafts
      requires FindUserTeam(teams, nextTeamId, team.draftId, team.betterAuthUserId).None?
      requires team.draftOrderNumber == |TeamsOf(teams, nextTeamId, team.draftId)| + 1
      modifies this
      ensures Valid()
      ensures id == old(nextTeamId)
      ensures teams == old(teams)[id := team] && nextTeamId == old(nextTeamId) + 1
      ensures TeamsOf(teams, nextTeamId, team.draftId) == old(TeamsOf(teams, nextTeamId, team.draftId)) + [id]
      ensures old(TeamsOf(teams, nextTeamId, team.draftId)) == [] ==> GetDraftTeams(teams, nextTeamId, team.draftId) == [id]
      ensures drafts == old(drafts) && presence == old(presence)
      ensures nextDraftId == old(nextDraftId) && nextPresenceId == old(nextPresenceId)
    {
      AddTeamPreserves(drafts, teams, presence, nextDraftId, nextTeamId, nextPresenceId, team);
      id := nextTeamId;
      teams := teams[id := team];
      nextTeamId := nextTeamId + 1;
      if old(TeamsOf(teams, nextTeamId, team.draftId)) == [] {
        SingleTeamListed(teams, nextTeamId, team.draftId, id);
      }
    }

    /** `create`: a new PRE draft at pick 1 hosted by the caller, and the host's team at
        draft order 1, its only team and the whole of its `getDraftTeams` list. */
    method Create(caller: Option<AuthUser>, name: string, startDatetime: int) returns (r: Result<DraftId, DraftError>)
      requires Valid()
      modifies this
      ensures Valid()
      ensures DraftsEvolve(old(drafts), drafts)
      ensures AuthId(caller).None? ==> r == Failure(Unauthenticated) && unchanged(this)
      ensures AuthId(caller).Some? ==>
                && r == Success(old(nextDraftId))
                && old(nextDraftId) !in old(drafts)
                && drafts == old(drafts)[r.value := Draft(name, startDatetime, AuthId(caller), PRE, 1, None)]
                && teams == old(teams)[old(nextTeamId) :=
                                         Team(AuthId(caller).value, r.value, HostTeamName(caller.value), 1)]
                && presence == old(presence)
                && nextDraftId == old(nextDraftId) + 1 && nextTeamId == old(nextTeamId) + 1
                && nextPresenceId == old(nextPresenceId)
                && TeamsOf(teams, nextTeamId, r.value) == [old(nextTeamId)]
                && GetDraftTeams(teams, nextTeamId, r.value) == [old(nextTeamId)]
    {
      var uid := AuthId(caller);
      if uid.None? {
        return Failure(Unauthenticated);
      }
      var draftId := InsertDraft(Draft(name, startDatetime, uid, PRE, 1, None));
      var teamId := InsertTeam(Team(uid.value, draftId, HostTeamName(caller.value), 1));
      r := Success(draftId);
    }

    /** `joinDraft`: the caller's new team takes the next draft-order number, after the checks
        of `JoinCheck` (the code's checks plus the status check). A draft that has started
        keeps its roster. */
    method JoinDraft(caller: Option<AuthUser>, d: DraftId, teamName: string) returns (r: Result<TeamId, DraftError>)
      requires Valid()
      modifies this
      ensures Valid()
      ensures drafts == old(drafts) && presence == old(presence)
      ensures old(JoinCheck(drafts, teams, nextTeamId, caller, d)).Fail? ==>
                r == Failure(old(JoinCheck(drafts, teams, nextTeamId, caller, d)).error) && unchanged(this)
      ensures r.Success? <==> old(JoinCheck(drafts, teams, nextTeamId, caller, d)).Pass?
      ensures d in old(drafts) && old(drafts)[d].status != PRE ==> teams == old(teams)
      ensures r.Success? ==>
                && r.value == old(nextTeamId)
                && teams == old(teams)[r.value := Team(AuthId(caller).value, d, teamName,
                                                       old(|TeamsOf(teams, nextTeamId, d)|) + 1)]
                && TeamsOf(teams, nextTeamId, d) == old(TeamsOf(teams, nextTeamId, d)) + [r.value]
                && nextTeamId == old(nextTeamId) + 1
                && nextDraftId == old(nextDraftId) && nextPresenceId == old(nextPresenceId)
    {
      var uid := AuthId(caller);
      if uid.None? {
        return Failure(Unauthenticated);
      }
      if d !in drafts {
        return Failure(DraftNotFound);
      }
      if drafts[d].status != PRE {
        return Failure(NotPreDraft);
      }
      if FindUserTeam(teams, nextTeamId, d, uid.value).Some? {
        return Failure(AlreadyInDraft);
      }
      var teamId := InsertTeam(Team(uid.value, d, teamName, |TeamsOf(teams, nextTeamId, d)| + 1));
      r := Success(teamId);
    }

    /** `joinDraft` as the code is written: the checks of `JoinCheckAsWritten`, which never
        look at the draft's status, then the caller's team at the next draft-order number.
        The store's `JoinDraft` is the corrected join. */
    method JoinDraftAsWritten(caller: Option<AuthUser>, d: DraftId, teamName: string) returns (r: Result<TeamId, DraftError>)
      requires Valid()
      modifies this
      ensures Valid()
      ensures drafts == old(drafts) && presence == old(presence)
      ensures old(JoinCheckAsWritten(drafts, teams, nextTeamId, caller, d)).Fail? ==>
                r == Failure(old(JoinCheckAsWritten(drafts, teams, nextTeamId, caller, d)).error) && unchanged(this)
      ensures r.Success? <==> old(JoinCheckAsWritten(drafts, teams, nextTeamId, caller, d)).Pass?
      ensures r.Success? ==>
                && r.value == old(nextTeamId)
                && teams == Joined(old(teams), old(nextTeamId), d, AuthId(caller).value, teamName)
                && TeamsOf(teams, nextTeamId, d) == old(TeamsOf(teams, nextTeamId, d)) + [r.value]
                && nextTeamId == old(nextTeamId) + 1
                && nextDraftId == old(nextDraftId) && nextPresenceId == old(nextPresenceId)
    {
      var uid := AuthId(caller);
      if uid.None? {
        return Failure(Unauthenticated);
      }
      if d !in drafts {
        return Failure(DraftNotFound);
      }
      if FindUserTeam(teams, nextTeamId, d, uid.value).Some? {
        return Failure(AlreadyInDraft);
      }
      var teamId := InsertTeam(Team(uid.value, d, teamName, |TeamsOf(teams, nextTeamId, d)| + 1));
      r := Success(teamId);
    }

    /** `startDraft`: PRE to DURING at pick 1, the pick clock started now. */
    method StartDraft(caller: Option<AuthUser>, d: DraftId, now: int) returns (r: Outcome<DraftError>)
      requires Valid()
      modifies this
      ensures Valid()
      ensures DraftsEvolve(old(drafts), drafts)
      ensures HostCheck(old(drafts), caller, d).Fail? ==> r == HostCheck(old(drafts), caller, d)
      ensures HostCheck(old(drafts), caller, d).Pass? ==>
                var draft := old(drafts)[d];
                var numTeams := old(|TeamsOf(teams, nextTeamId, d)|);
                && (draft.status != PRE ==> r == Fail(NotPreDraft))
                && (draft.status == PRE && now < draft.startDatetime ==> r == Fail(BeforeStartTime))
                && (draft.status == PRE && draft.startDatetime <= now && numTeams == 0 ==> r == Fail(NoTeams))
                && (draft.status == PRE && draft.startDatetime <= now && numTeams > 0 ==> r == Pass)
      ensures r.Fail? ==> unchanged(this)
      ensures r.Pass? ==>
                && drafts == old(drafts)[d := old(drafts)[d].(status := DURING, currentDraftPickNumber := 1,
                                                              currentPickStartTime := Some(now))]
                && teams == old(teams) && presence == old(presence)
                && nextDraftId == old(nextDraftId) && nextTeamId == old(nextTeamId)
                && nextPresenceId == old(nextPresenceId)
    {
      r := HostCheck(drafts, caller, d);
      if r.Fail? {
        return;
      }
      if drafts[d].status != PRE {
        return Fail(NotPreDraft);
      }
      if drafts[d].startDatetime > now {
        return Fail(BeforeStartTime);
      }
      if |TeamsOf(teams, nextTeamId, d)| == 0 {
        return Fail(NoTeams);
      }
      var started := drafts[d].(status := DURING, currentDraftPickNumber := 1, currentPickStartTime := Some(now));
      UpdateDraftPreserves(drafts, teams, presence, nextDraftId, nextTeamId, nextPresenceId, d, started);
      drafts := drafts[d := started];
    }

    /** The patch loop of `randomizeDraftTeams`: team k of `shuffled` gets draft order
        k + 1; nothing else changes. */
    method AssignOrders(shuffled: seq<TeamId>)
      requires forall k :: 0 <= k < |shuffled| ==> shuffled[k] in teams
      modifies this
      ensures teams == Renumbered(old(teams), shuffled, |shuffled|)
      ensures drafts == old(drafts) && presence == old(presence)
      ensures nextDraftId == old(nextDraftId) && nextTeamId == old(nextTeamId) && nextPresenceId == old(nextPresenceId)
    {
      var k := 0;
      while k < |shuffled|
        invariant 0 <= k <= |shuffled|
        invariant teams == Renumbered(old(teams), shuffled, k)
        invariant drafts == old(drafts) && presence == old(presence)
        invariant nextDraftId == old(nextDraftId) && nextTeamId == old(nextTeamId)
        invariant nextPresenceId == old(nextPresenceId)
      {
        teams := teams[shuffled[k] := teams[shuffled[k]].(draftOrderNumber := k + 1)];
        k := k + 1;
      }
    }

    /** Renumbers the teams of draft `d` after a permutation of them: the team at position k
        gets draft order k + 1, so the sorted team list is the permutation itself. */
    method ReorderTeams(d: DraftId, shuffled: seq<TeamId>)
      requires Valid()
      requires multiset(shuffled) == multiset(TeamsOf(teams, nextTeamId, d))
      modifies this
      ensures Valid()
      ensures drafts == old(drafts) && presence == old(presence)
      ensures nextDraftId == old(nextDraftId) && nextTeamId == old(nextTeamId) && nextPresenceId == old(nextPresenceId)
      ensures Reordered(old(teams), teams, shuffled)
      ensures GetDraftTeams(teams, nextTeamId, d) == shuffled
    {
      IdsWhereIncreasing(teams, InDraft(d), nextTeamId);
      Shuffle.PermutationKeepsDistinct(TeamsOf(teams, nextTeamId, d), shuffled);
      forall k | 0 <= k < |shuffled|
        ensures shuffled[k] in teams
      {
        Shuffle.SameElements(shuffled, TeamsOf(teams, nextTeamId, d), shuffled[k]);
      }
      ghost var before := teams;
      AssignOrders(shuffled);
      RenumberedKeepsRecords(before, shuffled, |shuffled|);
      RenumberedUntouched(before, shuffled, |shuffled|);
      RenumberedOrders(before, shuffled, |shuffled|);
      assert shuffled[..|shuffled|] == shuffled;
      RenumberPreserves(drafts, before, teams, presence, nextDraftId, nextTeamId, nextPresenceId, d, shuffled);
    }

    /** `randomizeDraftTeams`: a Fisher–Yates shuffle of the draft's teams (the draw of pass i
        is `oracle(i) % (i + 1)`), then team k of the shuffle gets draft-order number k + 1. */
    method RandomizeDraftTeams(caller: Option<AuthUser>, d: DraftId, oracle: nat -> nat) returns (r: Outcome<DraftError>)
      requires Valid()
      modifies this
      ensures Valid()
      ensures drafts == old(drafts) && presence == old(presence)
      ensures nextDraftId == old(nextDraftId) && nextTeamId == old(nextTeamId) && nextPresenceId == old(nextPresenceId)
      ensures HostCheck(old(drafts), caller, d).Fail? ==> r == HostCheck(old(drafts), caller, d)
      ensures HostCheck(old(drafts), caller, d).Pass? ==>
                var numTeams := old(|TeamsOf(teams, nextTeamId, d)|);
                && (old(drafts)[d].status != PRE ==> r == Fail(NotPreDraft))
                && (old(drafts)[d].status == PRE && numTeams == 0 ==> r == Fail(NoTeams))
                && (old(drafts)[d].status == PRE && numTeams > 0 ==> r == Pass)
      ensures r.Fail? ==> unchanged(this)
      ensures r.Pass? ==>
                var ids := old(TeamsOf(teams, nextTeamId, d));
                var shuffled := Shuffle.FisherYates(ids, oracle, |ids|);
                && Reordered(old(teams), teams, shuffled)
                && GetDraftTeams(teams, nextTeamId, d) == shuffled
    {
      r := HostCheck(drafts, caller, d);
      if r.Fail? {
        return;
      }
      if drafts[d].status != PRE {
        return Fail(NotPreDraft);
      }
      var ids := TeamsOf(teams, nextTeamId, d);
      if |ids| == 0 {
        return Fail(NoTeams);
      }
      var a := new TeamId[|ids|](k requires 0 <= k < |ids| => ids[k]);
      assert a[..] == ids;
      Shuffle.ShuffleInPlace(a, oracle);
      Shuffle.FisherYatesPermutes(ids, oracle, |ids|);
      ReorderTeams(d, a[..]);
      r := Pass;
    }

    /** `finishDraft`: the host ends a DURING draft; only the status changes. */
    method FinishDraft(caller: Option<AuthUser>, d: DraftId) returns (r: Outcome<DraftError>)
      requires Valid()
      modifies this
      ensures Valid()
      ensures DraftsEvolve(old(drafts), drafts)
      ensures HostCheck(old(drafts), caller, d).Fail? ==> r == HostCheck(old(drafts), caller, d)
      ensures HostCheck(old(drafts), caller, d).Pass? ==>
                (old(drafts)[d].status != DURING ==> r == Fail(NotDuring))
                && (old(drafts)[d].status == DURING ==> r == Pass)
      ensures r.Fail? ==> unchanged(this)
      ensures r.Pass? ==>
                && drafts == old(drafts)[d := old(drafts)[d].(status := POST)]
                && teams == old(teams) && presence == old(presence)
                && nextDraftId == old(nextDraftId) && nextTeamId == old(nextTeamId)
                && nextPresenceId == old(nextPresenceId)
    {
      r := HostCheck(drafts, caller, d);
      if r.Fail? {
        return;
      }
      if drafts[d].status != DURING {
        return Fail(NotDuring);
      }
      UpdateDraftPreserves(drafts, teams, presence, nextDraftId, nextTeamId, nextPresenceId, d, drafts[d].(status := POST));
      drafts := drafts[d := drafts[d].(status := POST)];
    }

    /** `advancePick`: the next pick starts now, or, past the last pick, the draft is over
        with its pick number and pick clock left as they were. */
    method AdvancePick(d: DraftId, now: int) returns (r: Outcome<DraftError>)
      requires Valid()
      modifies this
      ensures Valid()
      ensures DraftsEvolve(old(drafts), drafts)
      ensures r.Fail? <==> d !in old(drafts) || old(drafts)[d].status != DURING
      ensures r.Fail? ==> r.error == NotInProgress && unchanged(this)
      ensures r.Pass? ==>
                var draft := old(drafts)[d];
                var next := draft.currentDraftPickNumber + 1;
                && (next > MaxPicks(old(|TeamsOf(teams, nextTeamId, d)|)) ==>
                      drafts == old(drafts)[d := draft.(status := POST)])
                && (next <= MaxPicks(old(|TeamsOf(teams, nextTeamId, d)|)) ==>
                      drafts == old(drafts)[d := draft.(currentDraftPickNumber := next,
                                                        currentPickStartTime := Some(now))])
                && teams == old(teams) && presence == old(presence)
                && nextDraftId == old(nextDraftId) && nextTeamId == old(nextTeamId)
                && nextPresenceId == old(nextPresenceId)
    {
      if d !in drafts || drafts[d].status != DURING {
        return Fail(NotInProgress);
      }
      var numTeams := |TeamsOf(teams, nextTeamId, d)|;
      var maxPicks := MaxPicks(numTeams);
      var next := drafts[d].currentDraftPickNumber + 1;
      var updated := if next > maxPicks then drafts[d].(status := POST)
                     else drafts[d].(currentDraftPickNumber := next, currentPickStartTime := Some(now));
      UpdateDraftPreserves(drafts, teams, presence, nextDraftId, nextTeamId, nextPresenceId, d, updated);
      drafts := drafts[d := updated];
      r := Pass;
    }

    /** `updatePresence`: a heartbeat; a silent no-op without a caller, otherwise the caller's
        entry for the draft is created or refreshed with `lastSeen = now`. */
    method UpdatePresence(caller: Option<AuthUser>, d: DraftId, now: int)
      requires Valid()
      modifies this
      ensures Valid()
      ensures drafts == old(drafts) && teams == old(teams)
      ensures nextDraftId == old(nextDraftId) && nextTeamId == old(nextTeamId)
      ensures AuthId(caller).None? ==> unchanged(this)
      ensures AuthId(caller).Some? ==>
                var u := AuthId(caller).value;
                var found := old(FindPresence(presence, nextPresenceId, d, u));
                && (found.Some? ==> presence == old(presence)[found.value := PresenceEntry(d, u, now)]
                                    && nextPresenceId == old(nextPresenceId))
                && (found.None? ==> presence == old(presence)[old(nextPresenceId) := PresenceEntry(d, u, now)]
                                    && nextPresenceId == old(nextPresenceId) + 1)
                && FindPresence(presence, nextPresenceId, d, u).Some?
                && presence[FindPresence(presence, nextPresenceId, d, u).value].lastSeen == now
    {
      var uid := AuthId(caller);
      if uid.None? {
        return;
      }
      var found := FindPresence(presence, nextPresenceId, d, uid.value);
      if found.Some? {
        TouchPresencePreserves(drafts, teams, presence, nextDraftId, nextTeamId, nextPresenceId, found.value, now);
        presence := presence[found.value := presence[found.value].(lastSeen := now)];
      } else {
        var entry := PresenceEntry(d, uid.value, now);
        AddPresencePreserves(drafts, teams, presence, nextDraftId, nextTeamId, nextPresenceId, entry);
        presence := presence[nextPresenceId := entry];
        nextPresenceId := nextPresenceId + 1;
      }
    }

    /** `removePresence`: deletes the caller's entry for the draft, and nothing else. */
    method RemovePresence(caller: Option<AuthUser>, d: DraftId)
      requires Valid()
      modifies this
      ensures Valid()
      ensures drafts == old(drafts) && teams == old(teams)
      ensures nextDraftId == old(nextDraftId) && nextTeamId == old(nextTeamId)
      ensures nextPresenceId == old(nextPresenceId)
      ensures AuthId(caller).None? ==> unchanged(this)
      ensures AuthId(caller).Some? ==>
                var u := AuthId(caller).value;
                var found := old(FindPresence(presence, nextPresenceId, d, u));
                && (found.Some? ==> presence == old(presence) - {found.value})
                && (found.None? ==> presence == old(presence))
                && FindPresence(presence, nextPresenceId, d, u).None?
    {
      var uid := AuthId(caller);
      if uid.None? {
        return;
      }
      var found := FindPresence(presence, nextPresenceId, d, uid.value);
      if found.Some? {
        RemovePresencePreserves(drafts, teams, presence, nextDraftId, nextTeamId, nextPresenceId, found.value);
        presence := presence - {found.value};
      }
    }
  }
}
