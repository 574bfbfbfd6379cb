/** The catalog of draftable players: a fixed list of 45 players that seeding inserts once
    into an empty table, and a clear that empties the table. */
module Seed {
  import opened Wrappers
  import opened Tables

  type PlayerId = nat

  datatype Player = Player(name: string, position: string, avatar: string)

  /** What `seedDraftablePlayers` returns; `playerIds` is present only after an insert. */
  datatype SeedResult = SeedResult(message: string, count: nat, playerIds: Option<seq<PlayerId>>)

  /** What `clearDraftablePlayers` returns. */
  datatype ClearResult = ClearResult(message: string, count: nat)

  const ALREADY_SEEDED: string := "Players already seeded"
  const SEEDED: string := "Successfully seeded draftable players"
  const CLEARED: string := "All players cleared"

  const AVATAR_BASE: string := "https://assets.nhle.com/mugs/nhl/latest/"

  /** The avatar URL of the player with the given NHL id. */
  function Avatar(nhlId: string): string
  {
    AVATAR_BASE + nhlId + ".png"
  }

  /** The players positions are drawn from: centre, wings, defence and goal. */
  const POSITIONS: set<string> := {"C", "LW", "RW", "D", "G"}

  /** The forwards of the seed list: centres and wingers. */
  const FORWARDS: seq<Player> :=
    [
      Player("Connor McDavid", "C", Avatar("8478402")),
      Player("Auston Matthews", "C", Avatar("8479318")),
      Player("Nathan MacKinnon", "C", Avatar("8477492")),
      Player("Leon Draisaitl", "C", Avatar("8477934")),
      Player("Sidney Crosby", "C", Avatar("8471675")),
      Player("David Pastrnak", "RW", Avatar("8477956")),
      Player("Nikita Kucherov", "RW", Avatar("8476453")),
      Player("Matthew Tkachuk", "LW", Avatar("8479314")),
      Player("Artemi Panarin", "LW", Avatar("8478550")),
      Player("Mikko Rantanen", "RW", Avatar("8478420")),
      Player("Jack Eichel", "C", Avatar("8478403")),
      Player("Elias Pettersson", "C", Avatar("8481539")),
      Player("Kirill Kaprizov", "LW", Avatar("8478864")),
      Player("Jason Robertson", "LW", Avatar("8480027")),
      Player("Mitch Marner", "RW", Avatar("8478483")),
      Player("Alex Ovechkin", "LW", Avatar("8471214")),
      Player("Brad Marchand", "LW", Avatar("8473419")),
      Player("Sebastian Aho", "C", Avatar("8478427")),
      Player("J.T. Miller", "C", Avatar("8476468")),
      Player("Kyle Connor", "LW", Avatar("8478398"))
    ]

  /** The defencemen of the seed list. */
  const DEFENCEMEN: seq<Player> :=
    [
      Player("Cale Makar", "D", Avatar("8480069")),
      Player("Roman Josi", "D", Avatar("8474600")),
      Player("Quinn Hughes", "D", Avatar("8480800")),
      Player("Adam Fox", "D", Avatar("8479323")),
      Player("Victor Hedman", "D", Avatar("8475167")),
      Player("Moritz Seider", "D", Avatar("8481542")),
      Player("Evan Bouchard", "D", Avatar("8480803")),
      Player("Josh Morrissey", "D", Avatar("8477504")),
      Player("Dougie Hamilton", "D", Avatar("8476462")),
      Player("Miro Heiskanen", "D", Avatar("8480036")),
      Player("Charlie McAvoy", "D", Avatar("8479325")),
      Player("Devon Toews", "D", Avatar("8478438")),
      Player("Aaron Ekblad", "D", Avatar("8477932")),
      Player("Rasmus Dahlin", "D", Avatar("8480839")),
      Player("Thomas Chabot", "D", Avatar("8479975"))
    ]

  /** The goalies of the seed list. */
  const GOALIES: seq<Player> :=
    [
      Player("Connor Hellebuyck", "G", Avatar("8476945")),
      Player("Igor Shesterkin", "G", Avatar("8478048")),
      Player("Andrei Vasilevskiy", "G", Avatar("8476883")),
      Player("Juuse Saros", "G", Avatar("8477424")),
      Player("Ilya Sorokin", "G", Avatar("8478009")),
      Player("Jake Oettinger", "G", Avatar("8479979")),
      Player("Jeremy Swayman", "G", Avatar("8480280")),
      Player("Alexandar Georgiev", "G", Avatar("8478027")),
      Player("Linus Ullmark", "G", Avatar("8476999")),
      Player("Frederik Andersen", "G", Avatar("8475883"))
    ]

  /** The seed list, in insertion order: forwards, then defencemen, then goalies. */
  const SEED_PLAYERS: seq<Player> := FORWARDS + DEFENCEMEN + GOALIES

  lemma ForwardsPositions()
    ensures |FORWARDS| == 20
    ensures forall i :: 0 <= i < |FORWARDS| ==> FORWARDS[i].position in {"C", "LW", "RW"}
  {
  }

  lemma DefencemenPositions()
    ensures |DEFENCEMEN| == 15
    ensures forall i :: 0 <= i < |DEFENCEMEN| ==> DEFENCEMEN[i].position == "D"
  {
  }

  lemma GoaliesPositions()
    ensures |GOALIES| == 10
    ensures forall i :: 0 <= i < |GOALIES| ==> GOALIES[i].position == "G"
  {
  }

  /** The seed list holds 45 players, each at one of the five positions. */
  lemma SeedPlayersShape()
    ensures |SEED_PLAYERS| == 45
    ensures forall i :: 0 <= i < |SEED_PLAYERS| ==> SEED_PLAYERS[i].position in POSITIONS
  {
    ForwardsPositions();
    DefencemenPositions();
    GoaliesPositions();
  }

  /** Selection of a full-table scan. */
  function AnyPlayer(): Player -> bool
  {
    (p: Player) => true
  }

  /** The table that inserting `ps` one by one from id `start` produces. */
  ghost function Catalog(start: nat, ps: seq<Player>): (m: map<PlayerId, Player>)
    ensures forall k :: k in m <==> start <= k < start + |ps|
    ensures forall i :: 0 <= i < |ps| ==> m[start + i] == ps[i]
    decreases |ps|
  {
    if ps == [] then map[]
    else Catalog(start, ps[..|ps| - 1])[start + |ps| - 1 := ps[|ps| - 1]]
  }

  /** The ids `start`, `start + 1`, ..., `start + n - 1`, in that order. */
  function IdRange(start: nat, n: nat): (r: seq<PlayerId>)
    ensures |r| == n && forall i :: 0 <= i < n ==> r[i] == start + i
    decreases n
  {
    if n == 0 then [] else IdRange(start, n - 1) + [start + n - 1]
  }

  /** The table and next id after seeding with `list`: unchanged when the table holds any
      player, and otherwise `list` under consecutive fresh ids. */
  ghost function SeedSpec(players: map<PlayerId, Player>, nextId: nat, list: seq<Player>): (r: (map<PlayerId, Player>, nat))
    ensures |players| > 0 ==> r == (players, nextId)
    ensures |players| == 0 ==>
              && r.1 == nextId + |list|
              && (forall k :: k in r.0 <==> nextId <= k < nextId + |list|)
              && (forall i :: 0 <= i < |list| ==> r.0[nextId + i] == list[i])
  {
    if |players| > 0 then (players, nextId)
    else (Catalog(nextId, list), nextId + |list|)
  }

  /** Seeding twice with a non-empty list leaves the table as seeding once. */
  lemma SeedIdempotent(players: map<PlayerId, Player>, nextId: nat, list: seq<Player>)
    requires list != []
    ensures var (p1, n1) := SeedSpec(players, nextId, list); SeedSpec(p1, n1, list) == (p1, n1)
  {
    if |players| == 0 {
      var m := Catalog(nextId, list);
      assert m[nextId] == list[0];
      assert nextId in m.Keys;
    }
  }

  /** The seed of `seedDraftablePlayers` is idempotent. */
  lemma SeedPlayersIdempotent(players: map<PlayerId, Player>, nextId: nat)
    ensures var (p1, n1) := SeedSpec(players, nextId, SEED_PLAYERS); SeedSpec(p1, n1, SEED_PLAYERS) == (p1, n1)
  {
    SeedPlayersShape();
    SeedIdempotent(players, nextId, SEED_PLAYERS);
  }

  /** The `draftablePlayers` table with its next fresh id. */
  class PlayerTable {
    var players: map<PlayerId, Player>
    var nextId: nat

    ghost predicate Valid()
      reads this
    {
      KeysBelow(players, nextId)
    }

    /** An empty table. */
    constructor ()
      ensures Valid() && players == map[]
    {
      players, nextId := map[], 0;
    }

    /** The insert loop of the seed: each player of `ps`, in order, under the next id; the
        new ids are returned in insertion order. */
    method InsertAll(ps: seq<Player>) returns (inserted: seq<PlayerId>)
      requires Valid() && players == map[]
      modifies this
      ensures Valid()
      ensures players == Catalog(old(nextId), ps) && nextId == old(nextId) + |ps|
      ensures inserted == IdRange(old(nextId), |ps|)
    {
      inserted := [];
      for i := 0 to |ps|
        invariant players == Catalog(old(nextId), ps[..i])
        invariant nextId == old(nextId) + i
        invariant |inserted| == i && forall k :: 0 <= k < i ==> inserted[k] == old(nextId) + k
      {
        assert ps[..i + 1][..i] == ps[..i];
        var id := nextId;
        players := players[id := ps[i]];
        nextId := nextId + 1;
        inserted := inserted + [id];
      }
      assert ps[..|ps|] == ps;
      assert inserted == IdRange(old(nextId), |ps|);
    }

    /** The body of `seedDraftablePlayers` for a given list: a no-op reporting the current
        size when the table holds any player; otherwise inserts `list` in order and reports
        the new ids. */
    method SeedFrom(list: seq<Player>) returns (r: SeedResult)
      requires Valid()
      modifies this
      ensures Valid()
      ensures (players, nextId) == SeedSpec(old(players), old(nextId), list)
      ensures |old(players)| > 0 ==> r == SeedResult(ALREADY_SEEDED, |old(players)|, None)
      ensures |old(players)| == 0 ==> r == SeedResult(SEEDED, |list|, Some(IdRange(old(nextId), |list|)))
    {
      var existing := IdsWhere(players, AnyPlayer(), nextId);
      ScanAll(players, AnyPlayer(), nextId);
      if |existing| > 0 {
        return SeedResult(ALREADY_SEEDED, |existing|, None);
      }
      var inserted := InsertAll(list);
      r := SeedResult(SEEDED, |inserted|, Some(inserted));
    }

    /** `seedDraftablePlayers`: seeds the 45 players of the seed list into an empty table. */
    method SeedDraftablePlayers() returns (r: SeedResult)
      requires Valid()
      modifies this
      ensures Valid()
      ensures (players, nextId) == SeedSpec(old(players), old(nextId), SEED_PLAYERS)
      ensures |old(players)| > 0 ==> r == SeedResult(ALREADY_SEEDED, |old(players)|, None)
      ensures |old(players)| == 0 ==> r == SeedResult(SEEDED, |SEED_PLAYERS|, Some(IdRange(old(nextId), |SEED_PLAYERS|)))
    {
      r := SeedFrom(SEED_PLAYERS);
    }

    /** The delete loop of the clear: removes each id of `ids` from the table; every other
        player stays as it was. */
    method DeleteAll(ids: seq<PlayerId>)
      requires Valid()
      modifies this
      ensures Valid()
      ensures forall k :: k in players <==> k in old(players) && k !in ids
      ensures forall k :: k in players ==> players[k] == old(players)[k]
      ensures nextId == old(nextId)
    {
      ghost var removed: set<PlayerId> := {};
      for i := 0 to |ids|
        invariant Valid()
        invariant forall k :: k in players <==> k in old(players) && k !in removed
        invariant forall k :: k in players ==> players[k] == old(players)[k]
        invariant forall j :: 0 <= j < i ==> ids[j] in removed
        invariant forall k :: k in removed ==> k in ids
        invariant nextId == old(nextId)
      {
        players := players - {ids[i]};
        removed := removed + {ids[i]};
      }
    }

    /** `clearDraftablePlayers`: deletes every player and reports how many there were. */
    method ClearDraftablePlayers() returns (r: ClearResult)
      requires Valid()
      modifies this
      ensures Valid()
      ensures players == map[] && nextId == old(nextId)
      ensures r == ClearResult(CLEARED, |old(players)|)
    {
      var all := IdsWhere(players, AnyPlayer(), nextId);
      ScanAll(players, AnyPlayer(), nextId);
      DeleteAll(all);
      assert players.Keys == {};
      r := ClearResult(CLEARED, |all|);
    }
  }
}
