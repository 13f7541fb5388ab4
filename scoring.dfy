/** The "2/3 of the average" scoring: mean, target, winner and ranking
    (the expressions of the `results` view and of `advance_phase`). */
module Scoring {
  import opened Wrappers
  import opened Models
  import opened Sorting

  /** Sum of all guesses. */
  function Sum(ps: seq<Player>): int
  {
    if ps == [] then 0 else Sum(ps[..|ps| - 1]) + ps[|ps| - 1].guess
  }

  /** The arithmetic mean of the guesses, as an exact real. */
  function Mean(ps: seq<Player>): (m: real)
    requires |ps| > 0
    ensures m * (|ps| as real) == Sum(ps) as real
  {
    (Sum(ps) as real) / (|ps| as real)
  }

  /** The target: two thirds of the mean guess. */
  function Target(ps: seq<Player>): (t: real)
    requires |ps| > 0
    ensures 3.0 * (|ps| as real) * t == 2.0 * (Sum(ps) as real)
  {
    (2.0 / 3.0) * Mean(ps)
  }

  /** How far a guess lies from the target. */
  function Dist(guess: int, target: real): (d: real)
    ensures d >= 0.0
  {
    if guess as real >= target then guess as real - target else target - guess as real
  }

  /** The key that orders players by how far their guess lies from `target`. */
  function DistanceTo(target: real): Player -> real
  {
    (p: Player) => Dist(p.guess, target)
  }

  /** The players ordered by distance to `target`, nearest first, ties in
      table order. */
  function Ranked(ps: seq<Player>, target: real): seq<Player>
  {
    SortBy(ps, DistanceTo(target))
  }

  /** Index of the winner: the earliest player whose guess is nearest the
      target. */
  function WinnerIndex(ps: seq<Player>): (k: nat)
    requires |ps| > 0
    ensures k < |ps|
    ensures forall j :: 0 <= j < |ps| ==> Dist(ps[k].guess, Target(ps)) <= Dist(ps[j].guess, Target(ps))
    ensures forall j :: 0 <= j < k ==> Dist(ps[k].guess, Target(ps)) < Dist(ps[j].guess, Target(ps))
  {
    ArgMin(ps, DistanceTo(Target(ps)))
  }

  function Abs(x: int): nat { if x < 0 then -x else x }

  /** The winner `min` picks is the head of the ranking `sorted` produces. */
  lemma WinnerLeadsRanking(ps: seq<Player>)
    requires |ps| > 0
    ensures |Ranked(ps, Target(ps))| == |ps|
    ensures Ranked(ps, Target(ps))[0] == ps[WinnerIndex(ps)]
  {
    SortByHeadIsArgMin(ps, DistanceTo(Target(ps)));
  }

  /** The ranking is a stable sort of the players by distance to `target`:
      sorted, a permutation, and players at equal distance keep their order. */
  lemma RankedIsStableSort(ps: seq<Player>, target: real)
    ensures |Ranked(ps, target)| == |ps|
    ensures multiset(Ranked(ps, target)) == multiset(ps)
    ensures forall i, j :: 0 <= i < j < |ps| ==>
      Dist(Ranked(ps, target)[i].guess, target) <= Dist(Ranked(ps, target)[j].guess, target)
    ensures forall d :: KeyFilter(Ranked(ps, target), DistanceTo(target), d) == KeyFilter(ps, DistanceTo(target), d)
  {
    SortByIsStableSort(ps, DistanceTo(target));
    var r := Ranked(ps, target);
    forall i, j | 0 <= i < j < |ps| ensures Dist(r[i].guess, target) <= Dist(r[j].guess, target) {
      assert DistanceTo(target)(r[i]) <= DistanceTo(target)(r[j]);
    }
  }

  /** Scaled by m, the distance to a target `t` with m*t == k is the
      integer |m*guess - k|. `Target` meets this with m == 3n and k == 2*sum,
      so distances to the exact target compare as integers do. */
  lemma ScaledDistance(guess: int, t: real, m: int, k: int)
    requires m > 0 && (m as real) * t == k as real
    ensures Dist(guess, t) * (m as real) == Abs(m * guess - k) as real
  {
    assert (m * guess) as real == (m as real) * (guess as real);
    assert (guess as real - t) * (m as real) == (m * guess - k) as real;
  }

  /** Two player lists with the same guesses, in order. */
  predicate SameGuesses(ps: seq<Player>, qs: seq<Player>) {
    |ps| == |qs| && forall i :: 0 <= i < |ps| ==> ps[i].guess == qs[i].guess
  }

  lemma {:induction false} SumSameGuesses(ps: seq<Player>, qs: seq<Player>)
    requires SameGuesses(ps, qs)
    ensures Sum(ps) == Sum(qs)
  {
    if ps != [] {
      SumSameGuesses(ps[..|ps| - 1], qs[..|qs| - 1]);
    }
  }

  /** The scores depend on the guesses alone: a pick, which changes only a
      draft position, leaves mean, target and winner as they were. */
  lemma ScoresDependOnGuessesOnly(ps: seq<Player>, qs: seq<Player>)
    requires SameGuesses(ps, qs)
    ensures Sum(ps) == Sum(qs)
    ensures |ps| > 0 ==> Mean(ps) == Mean(qs) && Target(ps) == Target(qs) && WinnerIndex(ps) == WinnerIndex(qs)
  {
    SumSameGuesses(ps, qs);
    if ps != [] {
      var key := DistanceTo(Target(ps));
      assert Target(ps) == Target(qs);
      forall i | 0 <= i < |ps| ensures key(ps[i]) == key(qs[i]) {
        assert ps[i].guess == qs[i].guess;
      }
      ArgMinPointwise(ps, qs, key);
    }
  }

  /** The five players of the admin's quick-test scenario. */
  const QuickTestPlayers: seq<Player> := [
    Player(1, "Alice", "alice@test.com", 300, None),
    Player(2, "Bob", "bob@test.com", 250, None),
    Player(3, "Charlie", "charlie@test.com", 400, None),
    Player(4, "Diana", "diana@test.com", 350, None),
    Player(5, "Eve", "eve@test.com", 200, None)
  ]

  /** Guesses 300, 250, 400, 350, 200: the mean is 300, the target 200, Eve
      wins, and the draft order is Eve, Bob, Alice, Diana, Charlie. */
  lemma QuickTestScores()
    ensures Mean(QuickTestPlayers) == 300.0
    ensures Target(QuickTestPlayers) == 200.0
    ensures WinnerIndex(QuickTestPlayers) == 4 && QuickTestPlayers[4].name == "Eve"
    ensures Ranked(QuickTestPlayers, Target(QuickTestPlayers)) ==
      [QuickTestPlayers[4], QuickTestPlayers[1], QuickTestPlayers[0], QuickTestPlayers[3], QuickTestPlayers[2]]
  {
    var ps := QuickTestPlayers;
    assert Sum(ps[..1]) == 300;
    assert Sum(ps[..2]) == 550 by { assert ps[..2][..1] == ps[..1]; }
    assert Sum(ps[..3]) == 950 by { assert ps[..3][..2] == ps[..2]; }
    assert Sum(ps[..4]) == 1300 by { assert ps[..4][..3] == ps[..3]; }
    assert Sum(ps) == 1500 by { assert ps[..4] == ps[..|ps| - 1]; }
    assert Target(ps) == 200.0;
    var k := WinnerIndex(ps);
    assert Dist(ps[k].guess, 200.0) <= Dist(ps[4].guess, 200.0);
    QuickTestRanking();
  }

  lemma QuickTestRanking()
    ensures Ranked(QuickTestPlayers, 200.0) ==
      [QuickTestPlayers[4], QuickTestPlayers[1], QuickTestPlayers[0], QuickTestPlayers[3], QuickTestPlayers[2]]
  {
    var ps, key := QuickTestPlayers, DistanceTo(200.0);
    var a, b, c, d, e := ps[0], ps[1], ps[2], ps[3], ps[4];
    assert key(a) == 100.0 && key(b) == 50.0;
    assert ps[1..] == [b, c, d, e];
    QuickTestTailRanking();
    assert SortBy(ps, key) == [e, b, a, d, c] by {
      assert Insert(a, [e, b, d, c], key) == [e] + Insert(a, [b, d, c], key);
      assert Insert(a, [b, d, c], key) == [b] + Insert(a, [d, c], key);
      assert Insert(a, [d, c], key) == [a, d, c];
    }
  }

  /** The ranking of Bob, Charlie, Diana and Eve by distance to 200. */
  lemma QuickTestTailRanking()
    ensures SortBy(QuickTestPlayers[1..], DistanceTo(200.0)) ==
      [QuickTestPlayers[4], QuickTestPlayers[1], QuickTestPlayers[3], QuickTestPlayers[2]]
  {
    var ps, key := QuickTestPlayers, DistanceTo(200.0);
    var b, c, d, e := ps[1], ps[2], ps[3], ps[4];
    assert key(b) == 50.0 && key(c) == 200.0 && key(d) == 150.0 && key(e) == 0.0;
    assert ps[1..] == [b, c, d, e];
    assert SortBy([e], key) == [e];
    assert SortBy([d, e], key) == [e, d] by {
      assert [d, e][1..] == [e];
      assert Insert(d, [e], key) == [e] + Insert(d, [], key);
    }
    assert SortBy([c, d, e], key) == [e, d, c] by {
      assert [c, d, e][1..] == [d, e];
      assert Insert(c, [e, d], key) == [e] + Insert(c, [d], key);
      assert Insert(c, [d], key) == [d] + Insert(c, [], key);
    }
    assert SortBy([b, c, d, e], key) == [e, b, d, c] by {
      assert [b, c, d, e][1..] == [c, d, e];
      assert Insert(b, [e, d, c], key) == [e] + Insert(b, [d, c], key);
      assert Insert(b, [d, c], key) == [b, d, c];
    }
  }
}
