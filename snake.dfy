/** The snake-order resolver of `getCurrentPick`: which team is on the clock for a 1-based
    pick number when `numTeams` teams pick in draft order, forward in odd rounds and in
    reverse in even rounds. */
module Snake {

  /** The 1-based round of a pick, `Math.ceil(pick / numTeams)`: the round whose block of
      `numTeams` consecutive picks contains `pick`. */
  function Round(pick: int, numTeams: int): (r: int)
    requires pick >= 1 && numTeams >= 1
    ensures r >= 1
    ensures (r - 1) * numTeams < pick <= r * numTeams
  {
    DivBounds(pick + numTeams - 1, numTeams);
    (pick + numTeams - 1) / numTeams
  }

  /** The zero-based index, into the teams sorted by draft order, of the team on the clock. */
  function TeamIndex(pick: int, numTeams: int): (i: int)
    requires pick >= 1 && numTeams >= 1
    ensures 0 <= i < numTeams
  {
    var offset := (pick - 1) % numTeams;
    if Round(pick, numTeams) % 2 == 1 then offset else numTeams - 1 - offset
  }

  /** The pick of round `round` at which team index `t` is on the clock: the inverse of the
      resolver within one round. */
  function PickOf(round: int, t: int, numTeams: int): (pick: int)
    requires round >= 1 && numTeams >= 1 && 0 <= t < numTeams
    ensures (round - 1) * numTeams < pick <= round * numTeams
  {
    if round % 2 == 1 then (round - 1) * numTeams + t + 1
    else (round - 1) * numTeams + (numTeams - 1 - t) + 1
  }

  /** Euclidean division of a non-negative number by a positive one, bounded by the product. */
  lemma DivBounds(a: int, n: int)
    requires a >= 0 && n >= 1
    ensures a / n >= 0
    ensures (a / n) * n <= a < (a / n) * n + n
  {
  }

  /** Quotient and remainder are determined by any decomposition `a == q * n + rem`. */
  lemma {:induction false} DivUnique(a: int, n: int, q: int, rem: int)
    requires n >= 1 && 0 <= rem < n && a == q * n + rem
    ensures a / n == q && a % n == rem
  {
    var q', rem' := a / n, a % n;
    assert (q - q') * n == rem' - rem;
    SmallMultiple(q - q', n);
  }

  /** The only multiple of `n` strictly between `-n` and `n` is zero. */
  lemma SmallMultiple(d: int, n: int)
    requires n >= 1 && -n < d * n < n
    ensures d == 0
  {
    if d >= 1 {
      MulAtLeast(d, n);
    } else if d <= -1 {
      MulAtLeast(-d, n);
    }
  }

  lemma MulAtLeast(d: int, n: int)
    requires d >= 1 && n >= 1
    ensures d * n >= n
  {
  }

  /** The k-th pick (0-based) of round `round` belongs to that round, and the team on the
      clock is the k-th in draft order in odd rounds and the k-th from last in even rounds. */
  lemma {:induction false} PickInRound(round: int, k: int, numTeams: int)
    requires round >= 1 && numTeams >= 1 && 0 <= k < numTeams
    ensures Round((round - 1) * numTeams + k + 1, numTeams) == round
    ensures TeamIndex((round - 1) * numTeams + k + 1, numTeams)
            == if round % 2 == 1 then k else numTeams - 1 - k
  {
    var pick := (round - 1) * numTeams + k + 1;
    DivUnique(pick + numTeams - 1, numTeams, round, k);
    DivUnique(pick - 1, numTeams, round - 1, k);
  }

  /** Every pick is the k-th pick of its round for the offset `(pick - 1) % numTeams`. */
  lemma {:induction false} PickDecomposition(pick: int, numTeams: int)
    requires pick >= 1 && numTeams >= 1
    ensures pick == (Round(pick, numTeams) - 1) * numTeams + (pick - 1) % numTeams + 1
  {
    var r := Round(pick, numTeams);
    var k := pick - 1 - (r - 1) * numTeams;
    assert 0 <= k < numTeams;
    DivUnique(pick - 1, numTeams, r - 1, k);
  }

  /** Within a round the resolver is a bijection onto the team indexes: `PickOf` is a pick of
      that round with the given team on the clock, and it is the only one. */
  lemma {:induction false} PickOfInverse(round: int, t: int, numTeams: int, pick: int)
    requires round >= 1 && numTeams >= 1 && 0 <= t < numTeams && pick >= 1
    ensures Round(PickOf(round, t, numTeams), numTeams) == round
    ensures TeamIndex(PickOf(round, t, numTeams), numTeams) == t
    ensures Round(pick, numTeams) == round && TeamIndex(pick, numTeams) == t
            ==> pick == PickOf(round, t, numTeams)
  {
    if round % 2 == 1 {
      PickInRound(round, t, numTeams);
    } else {
      PickInRound(round, numTeams - 1 - t, numTeams);
    }
    PickDecomposition(pick, numTeams);
  }

  /** The snake: the team that picks k-th in an odd round picks k-th from last in the even
      round after it, so each pair of rounds gives every team one early and one late pick. */
  lemma SnakePair(m: int, k: int, numTeams: int)
    requires m >= 0 && numTeams >= 1 && 0 <= k < numTeams
    ensures TeamIndex(2 * m * numTeams + k + 1, numTeams) == k
    ensures TeamIndex((2 * m + 2) * numTeams - k, numTeams) == k
  {
    var odd, even := 2 * m + 1, 2 * m + 2;
    assert odd % 2 == 1 && even % 2 == 0;
    assert (odd - 1) * numTeams == 2 * m * numTeams;
    assert (even - 1) * numTeams + (numTeams - 1 - k) + 1 == (2 * m + 2) * numTeams - k;
    PickInRound(odd, k, numTeams);
    PickInRound(even, numTeams - 1 - k, numTeams);
  }

  /** Three teams over the first two rounds: 0, 1, 2, 2, 1, 0. */
  lemma ThreeTeamsTwoRounds()
    ensures seq(6, i requires 0 <= i < 6 => TeamIndex(i + 1, 3)) == [0, 1, 2, 2, 1, 0]
  {
  }

  /** Four teams over the first two rounds: 0, 1, 2, 3, 3, 2, 1, 0. */
  lemma FourTeamsTwoRounds()
    ensures seq(8, i requires 0 <= i < 8 => TeamIndex(i + 1, 4)) == [0, 1, 2, 3, 3, 2, 1, 0]
  {
  }
}
