/** The synthetic players of the admin's simulation: names and emails from
    a fixed pool, then numbered placeholders. */
module Simulation {
  import opened Wrappers
  import opened Models

  /** The pool of (name, email) pairs handed out in order, written as three
      blocks of ten so that facts about it can be proved block by block. */
  const DummyNames: seq<(string, string)> := PoolBlock0 + PoolBlock1 + PoolBlock2

  const PoolBlock0: seq<(string, string)> := [
    ("Mike Johnson", "mike.johnson@email.com"),
    ("Sarah Davis", "sarah.davis@gmail.com"),
    ("Alex Thompson", "alex.thompson@yahoo.com"),
    ("Jessica Wilson", "jessica.wilson@hotmail.com"),
    ("Ryan Martinez", "ryan.martinez@email.com"),
    ("Ashley Brown", "ashley.brown@gmail.com"),
    ("David Lee", "david.lee@yahoo.com"),
    ("Amanda Taylor", "amanda.taylor@email.com"),
    ("Chris Anderson", "chris.anderson@gmail.com"),
    ("Lauren Garcia", "lauren.garcia@hotmail.com")
  ]

  const PoolBlock1: seq<(string, string)> := [
    ("Justin Miller", "justin.miller@email.com"),
    ("Nicole Rodriguez", "nicole.rodriguez@gmail.com"),
    ("Brandon White", "brandon.white@yahoo.com"),
    ("Stephanie Clark", "stephanie.clark@email.com"),
    ("Kevin Lopez", "kevin.lopez@gmail.com"),
    ("Emily Carter", "emily.carter@email.com"),
    ("Tyler Moore", "tyler.moore@gmail.com"),
    ("Rachel Green", "rachel.green@yahoo.com"),
    ("Jason Scott", "jason.scott@hotmail.com"),
    ("Megan Turner", "megan.turner@email.com")
  ]

  const PoolBlock2: seq<(string, string)> := [
    ("Derek Hall", "derek.hall@gmail.com"),
    ("Brittany Adams", "brittany.adams@yahoo.com"),
    ("Sean Parker", "sean.parker@email.com"),
    ("Vanessa King", "vanessa.king@gmail.com"),
    ("Logan Wright", "logan.wright@hotmail.com"),
    ("Kayla Mitchell", "kayla.mitchell@email.com"),
    ("Trevor Phillips", "trevor.phillips@gmail.com"),
    ("Samantha Young", "samantha.young@yahoo.com"),
    ("Marcus Allen", "marcus.allen@email.com"),
    ("Natalie Brooks", "natalie.brooks@gmail.com")
  ]

  /** Bounds of the random guesses a simulated player makes. */
  const MinSimulatedGuess: int := 150
  const MaxSimulatedGuess: int := 500

  function DigitChar(d: nat): char
    requires d < 10
  {
    "0123456789"[d]
  }

  function DigitValue(c: char): nat
  {
    if '0' <= c <= '9' then (c as int - '0' as int) as nat else 0
  }

  /** Python's decimal `str(n)` for a natural number. */
  function NatToString(n: nat): (s: string)
    ensures |s| > 0
    ensures forall i :: 0 <= i < |s| ==> '0' <= s[i] <= '9'
  {
    if n < 10 then [DigitChar(n)] else NatToString(n / 10) + [DigitChar(n % 10)]
  }

  /** Reads a string of decimal digits back as a number. */
  function ParseNat(s: string): nat
  {
    if s == [] then 0 else 10 * ParseNat(s[..|s| - 1]) + DigitValue(s[|s| - 1])
  }

  lemma DigitRoundTrip(d: nat)
    requires d < 10
    ensures DigitValue(DigitChar(d)) == d
  {
  }

  lemma {:induction false} ParseNatToString(n: nat)
    ensures ParseNat(NatToString(n)) == n
  {
    var s := NatToString(n);
    if n < 10 {
      DigitRoundTrip(n);
      assert s[..0] == [];
    } else {
      var q, d := n / 10, n % 10;
      ParseNatToString(q);
      DigitRoundTrip(d);
      assert s[..|s| - 1] == NatToString(q) && s[|s| - 1] == DigitChar(d);
      assert ParseNat(s) == 10 * q + d;
    }
  }

  /** Distinct numbers print differently. */
  lemma NatToStringInjective(m: nat, n: nat)
    requires NatToString(m) == NatToString(n)
    ensures m == n
  {
    ParseNatToString(m);
    ParseNatToString(n);
  }

  /** The placeholder name once the pool is used up: `f"Player {n}"`. */
  function PlaceholderName(n: nat): string
  {
    "Player " + NatToString(n)
  }

  /** The placeholder email: `f"player{n}@testleague.com"`. */
  function PlaceholderEmail(n: nat): string
  {
    "player" + NatToString(n) + "@testleague.com"
  }

  /** The name of the `i`-th simulated player (counting from 0) drawn from
      `pool`. */
  function SimulatedName(pool: seq<(string, string)>, i: nat): string
  {
    if i < |pool| then pool[i].0 else PlaceholderName(i + 1)
  }

  /** The email of the `i`-th simulated player. */
  function SimulatedEmail(pool: seq<(string, string)>, i: nat): string
  {
    if i < |pool| then pool[i].1 else PlaceholderEmail(i + 1)
  }

  /** The `i`-th simulated player: row id `i + 1` of a freshly emptied table. */
  function SimulatedPlayer(pool: seq<(string, string)>, i: nat, guess: int): Player
  {
    Player(i + 1, SimulatedName(pool, i), SimulatedEmail(pool, i), guess, None)
  }

  /** What the simulation needs of its pool for emails to stay unique: no
      email occurs twice, and none starts with 'p' as every placeholder does. */
  predicate PoolWellFormed(pool: seq<(string, string)>)
  {
    && (forall a, b :: 0 <= a < |pool| && 0 <= b < |pool| && a != b ==> pool[a].1 != pool[b].1)
    && (forall a :: 0 <= a < |pool| ==> |pool[a].1| > 0 && pool[a].1[0] != 'p')
  }

  /** Placeholder emails for different numbers differ. */
  lemma PlaceholderEmailsDistinct(m: nat, n: nat)
    requires m != n
    ensures PlaceholderEmail(m) != PlaceholderEmail(n)
  {
    var a, b := NatToString(m), NatToString(n);
    if PlaceholderEmail(m) == PlaceholderEmail(n) {
      var x, y := PlaceholderEmail(m), PlaceholderEmail(n);
      assert |a| == |b|;
      forall k | 0 <= k < |a| ensures a[k] == b[k] {
        assert x[6 + k] == a[k] && y[6 + k] == b[k];
      }
      assert a == b;
      NatToStringInjective(m, n);
    }
  }

  /** No two simulated players share an email when the pool is well formed. */
  lemma SimulatedEmailsDistinct(pool: seq<(string, string)>, i: nat, j: nat)
    requires PoolWellFormed(pool) && i != j
    ensures SimulatedEmail(pool, i) != SimulatedEmail(pool, j)
  {
    if i >= |pool| && j >= |pool| {
      PlaceholderEmailsDistinct(i + 1, j + 1);
    } else if i < |pool| && j >= |pool| {
      assert PlaceholderEmail(j + 1)[0] == 'p';
    } else if i >= |pool| && j < |pool| {
      assert PlaceholderEmail(i + 1)[0] == 'p';
    }
  }

  /** A table whose ids are 1, 2, ..., n gives the next row id n + 1. */
  lemma {:induction false} NextIdOfNumbered(ps: seq<Player>)
    requires forall i :: 0 <= i < |ps| ==> ps[i].id == i + 1
    ensures NextId(ps) == |ps| + 1
  {
    if ps != [] {
      NextIdOfNumbered(ps[..|ps| - 1]);
    }
  }

  /** The pool `simulate_game` uses is well formed. */
  lemma DummyNamesWellFormed()
    ensures PoolWellFormed(DummyNames)
  {
    forall a, b | 0 <= a < |DummyNames| && 0 <= b < |DummyNames| && a != b
      ensures DummyNames[a].1 != DummyNames[b].1
    {
      PoolEmailsDistinct(a, b);
    }
    forall a | 0 <= a < |DummyNames| ensures |DummyNames[a].1| > 0 && DummyNames[a].1[0] != 'p' {
      PoolEmailNotPlaceholder(a);
    }
  }

  /** Where entry `a` of the pool sits among its three blocks. */
  lemma PoolEntry(a: nat)
    requires a < |DummyNames|
    ensures |PoolBlock0| == 10 && |PoolBlock1| == 10 && |PoolBlock2| == 10
    ensures DummyNames[a] == if a < 10 then PoolBlock0[a] else if a < 20 then PoolBlock1[a - 10] else PoolBlock2[a - 20]
  {
  }

  lemma PoolEmailsDistinct(a: nat, b: nat)
    requires a < |DummyNames| && b < |DummyNames| && a != b
    ensures DummyNames[a].1 != DummyNames[b].1
  {
    PoolEntry(a);
    PoolEntry(b);
    if a > b {
      PoolEmailsDistinct(b, a);
    } else if b < 10 {
      BlockEmailsDistinct00(a, b);
    } else if a < 10 && b < 20 {
      BlockEmailsDistinct01(a, b - 10);
    } else if a < 10 {
      BlockEmailsDistinct02(a, b - 20);
    } else if b < 20 {
      BlockEmailsDistinct11(a - 10, b - 10);
    } else if a < 20 {
      BlockEmailsDistinct12(a - 10, b - 20);
    } else {
      BlockEmailsDistinct22(a - 20, b - 20);
    }
  }

  lemma PoolEmailNotPlaceholder(a: nat)
    requires a < |DummyNames|
    ensures |DummyNames[a].1| > 0 && DummyNames[a].1[0] != 'p'
  {
    PoolEntry(a);
    if a < 10 {
      BlockEmailsNotPlaceholders0(a);
    } else if a < 20 {
      BlockEmailsNotPlaceholders1(a - 10);
    } else {
      BlockEmailsNotPlaceholders2(a - 20);
    }
  }

  lemma BlockEmailsDistinct00(a: nat, b: nat)
    requires a < |PoolBlock0| && b < |PoolBlock0| && a != b
    ensures PoolBlock0[a].1 != PoolBlock0[b].1
  {
  }

  lemma BlockEmailsDistinct01(a: nat, b: nat)
    requires a < |PoolBlock0| && b < |PoolBlock1|
    ensures PoolBlock0[a].1 != PoolBlock1[b].1
  {
  }

  lemma BlockEmailsDistinct02(a: nat, b: nat)
    requires a < |PoolBlock0| && b < |PoolBlock2|
    ensures PoolBlock0[a].1 != PoolBlock2[b].1
  {
  }

  lemma BlockEmailsDistinct11(a: nat, b: nat)
    requires a < |PoolBlock1| && b < |PoolBlock1| && a != b
    ensures PoolBlock1[a].1 != PoolBlock1[b].1
  {
  }

  lemma BlockEmailsDistinct12(a: nat, b: nat)
    requires a < |PoolBlock1| && b < |PoolBlock2|
    ensures PoolBlock1[a].1 != PoolBlock2[b].1
  {
  }

  lemma BlockEmailsDistinct22(a: nat, b: nat)
    requires a < |PoolBlock2| && b < |PoolBlock2| && a != b
    ensures PoolBlock2[a].1 != PoolBlock2[b].1
  {
  }

  lemma BlockEmailsNotPlaceholders0(a: nat)
    requires a < |PoolBlock0|
    ensures |PoolBlock0[a].1| > 0 && PoolBlock0[a].1[0] != 'p'
  {
  }

  lemma BlockEmailsNotPlaceholders1(a: nat)
    requires a < |PoolBlock1|
    ensures |PoolBlock1[a].1| > 0 && PoolBlock1[a].1[0] != 'p'
  {
  }

  lemma BlockEmailsNotPlaceholders2(a: nat)
    requires a < |PoolBlock2|
    ensures |PoolBlock2[a].1| > 0 && PoolBlock2[a].1[0] != 'p'
  {
  }

  /** `added` is the run of the first `|added|` simulated players. */
  ghost predicate SimulatedPrefix(pool: seq<(string, string)>, added: seq<Player>, guesses: seq<int>)
  {
    |added| <= |guesses| && forall j :: 0 <= j < |added| ==> added[j] == SimulatedPlayer(pool, j, guesses[j])
  }

  /** Appending the next pool or placeholder row, with the table's next row
      id, extends the run by one simulated player. */
  lemma ExtendSimulated(pool: seq<(string, string)>, added: seq<Player>, guesses: seq<int>, name: string, email: string)
    requires SimulatedPrefix(pool, added, guesses) && |added| < |guesses|
    requires name == SimulatedName(pool, |added|) && email == SimulatedEmail(pool, |added|)
    ensures SimulatedPrefix(pool, added + [Player(NextId(added), name, email, guesses[|added|], None)], guesses)
  {
    forall j | 0 <= j < |added| ensures added[j].id == j + 1 {
      assert added[j] == SimulatedPlayer(pool, j, guesses[j]);
    }
    NextIdOfNumbered(added);
    var p := Player(NextId(added), name, email, guesses[|added|], None);
    assert p == SimulatedPlayer(pool, |added|, guesses[|added|]);
    var longer := added + [p];
    forall j | 0 <= j < |longer| ensures longer[j] == SimulatedPlayer(pool, j, guesses[j]) {
      if j < |added| {
        assert longer[j] == added[j];
      }
    }
  }

  /** The rows `simulate_game` adds to the emptied table, in order: the
      pool's entries first, then numbered placeholders. */
  method SimulatedPlayers(pool: seq<(string, string)>, numPlayers: int, guesses: seq<int>) returns (added: seq<Player>)
    requires numPlayers <= |guesses|
    ensures |added| == if numPlayers > 0 then numPlayers else 0
    ensures forall i :: 0 <= i < |added| ==> added[i] == SimulatedPlayer(pool, i, guesses[i])
  {
    added := [];
    // range(min(numPlayers, len(pool))) is empty when numPlayers is not positive
    var fromPool := if numPlayers <= 0 then 0 else if numPlayers < |pool| then numPlayers else |pool|;
    var i := 0;
    while i < fromPool
      invariant 0 <= i <= fromPool && |added| == i
      invariant SimulatedPrefix(pool, added, guesses)
    {
      var (name, email) := pool[i];
      ExtendSimulated(pool, added, guesses, name, email);
      added := added + [Player(NextId(added), name, email, guesses[i], None)];
      i := i + 1;
    }
    if numPlayers > |pool| {
      while i < numPlayers
        invariant |pool| <= i <= numPlayers && |added| == i
        invariant SimulatedPrefix(pool, added, guesses)
      {
        var name := PlaceholderName(i + 1);
        var email := PlaceholderEmail(i + 1);
        ExtendSimulated(pool, added, guesses, name, email);
        added := added + [Player(NextId(added), name, email, guesses[i], None)];
        i := i + 1;
      }
    }
  }
}
