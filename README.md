# ff-draft-game: a verified model of the game logic

The game is a league-wide "2/3 of the average" guessing contest that
decides a fantasy-football draft order. Every participant submits a
whole-number guess between 0 and 1000. The target is two thirds of the
mean guess. The player whose guess is nearest the target wins and picks a
draft position first. The others pick in order of their distance to the
target.

The game runs through four phases: `submission`, `results`, `selecting` and
`completed`. An administrator advances the phase, can reset the game, and
can fill the table with a simulated or a fixed quick-test field.

This project models the game logic of `app.py` without its web and
database plumbing. The player table is a sequence of `Player` values and
the single game-state row is a `GameState` value. Both live in the `Store`
class, and each route is a method on `Store` that updates the two fields as
the route's commit does. What a method returns depends on the route:

- `SubmitGuess` and `SelectDraftPosition` return an `Outcome`, which is
  accepted or rejected with an `Error` naming the message the route flashes.
- `ShowResults` returns the `ResultsPage` the results view renders.
- `DraftSelection` changes nothing and returns the `DraftBoard` the view
  renders, or the `Error` for which it redirects. One error, `TargetMissing`,
  stands for a crash rather than a message (see "Left out").
- `AdvancePhase`, `ResetGame`, `Simulate` and `QuickTest` return nothing.
  Their only message is a success notice.

Modules, one per concern:

- `Wrappers`: `Option` and `Result`.
- `Models`: the two records, the guess bounds, and row ids. A new row gets
  the SQLite id, one more than the largest id present.
- `Sorting`: Python's stable `sorted` and first-minimum `min` for a
  real-valued key. Both are proved: a stable sort, the only one, and
  `min` is the head of `sorted`.
- `Scoring`: sum, mean, target, distance, winner and ranking, plus the
  quick-test figures.
- `Draft`: Python truthiness of a draft position, the current picker, the
  taken-positions table and the draft order.
- `Simulation`: the simulated players of the admin simulation. The first 30
  come from a fixed pool; after that they are numbered placeholders.
- `Game`: the store and its invariant `Consistent`, the routes, and the
  lemmas that the routes keep the invariant.

The invariant says:

- ids are unique and positive, emails are unique, and guesses are in range;
- no two players hold the same stored position;
- during `submission` there are no scores and no picks;
- in every later phase the table is non-empty and the stored winner, target
  and average are exactly the scores of the current table;
- in `completed` every player has picked.

The model follows app.py as written; in particular:

- There is no `setup` phase.
- `advance_phase` with an empty table in `submission` changes nothing.
- Duplicate submissions are detected by email, not by name.
- The public results view rewrites the stored phase to `results` whenever
  there are players. This happens even during `selecting` or `completed`,
  and `Store.ShowResults` models it as written.

## Model

| member | source | states |
|---|---|---|
| Models.MaxId | app.py:26 | the largest id in the table: at least every id and equal to one of them, or 0 when no id is positive (in particular for an empty table) |
| Models.NextId | app.py:115-117 | the id a new row receives is at least 1 and larger than every existing id, so it is fresh |
| Models.IndexOfId | app.py:459-464 | `Player.query.get`: a found index holds a player with that id; no index means no player has it |
| Sorting.Insert | app.py:138 | one insertion step of the sort; see InsertPermutation, InsertSorted and InsertKeyFilter |
| Sorting.SortBy | app.py:138 | Python's `sorted` with a key; SortByIsStableSort proves it a stable sort and StableSortIsUnique the only one |
| Sorting.KeyFilter | app.py:138 | the equal-key subsequence used to state stability is never longer than its input |
| Sorting.ArgMin | app.py:135 | `min` with a key: an index whose key is at most every key, and strictly below every key before it (the first minimum) |
| Sorting.InsertPermutation | app.py:138 | one insertion step adds exactly the inserted element |
| Sorting.InsertSorted | app.py:138 | inserting into a sorted sequence keeps it sorted |
| Sorting.InsertKeyFilter | app.py:138 | insertion puts the new element first among the elements of equal key |
| Sorting.SortByIsStableSort | app.py:138 | `sorted` output is ordered by key, is a permutation of its input, and keeps every equal-key subsequence in input order |
| Sorting.StableSortIsUnique | app.py:138 | any sorted sequence that keeps every equal-key subsequence of the input is exactly the model's `sorted` |
| Sorting.SortedWithSameFiltersEqual | app.py:138 | two sorted sequences with the same equal-key subsequences are equal |
| Sorting.SortByHeadIsArgMin | app.py:135-138 | the head of `sorted` is the element `min` returns |
| Sorting.ArgMinPointwise | app.py:135 | `min` depends only on the keys: sequences with equal keys, in order, have the same first minimum |
| Sorting.MapSeq | app.py:493 | an elementwise update keeps the length and changes each element by the map |
| Sorting.SortByMap | app.py:478-480 | sorting commutes with any update that leaves every key unchanged |
| Scoring.Sum | app.py:130-131 | the sum of the guesses; SumSameGuesses shows it depends on the guesses alone, and Mean and Target state its relation to them |
| Scoring.Mean | app.py:130-131 | mean times the number of players is the sum of the guesses |
| Scoring.Target | app.py:132 | 3 times n times the target is 2 times the sum of the guesses, so the target is 2/3 of the mean |
| Scoring.Dist | app.py:135 | the distance between a guess and the target is never negative |
| Scoring.DistanceTo | app.py:135 | the sort key of the ranking and of `min`: a player's distance `Dist` to the target |
| Scoring.Ranked | app.py:138 | the ranking by distance to a target (also app.py:413 and app.py:480); RankedIsStableSort and StableSortIsUnique characterise it |
| Scoring.WinnerIndex | app.py:135 | the winner is nearest the target, and every earlier player is strictly farther away |
| Scoring.WinnerLeadsRanking | app.py:135-138 | the winner `min` picks is the first entry of the ranking |
| Scoring.RankedIsStableSort | app.py:138 | the ranking is a permutation of the players, ordered by distance to the target, with ties kept in table order |
| Scoring.ScaledDistance | app.py:129-135 | scaled by 3n, each distance to the exact target is the integer distance from 3n times the guess to 2 times the sum |
| Scoring.SumSameGuesses | app.py:130 | the sum depends only on the guesses |
| Scoring.ScoresDependOnGuessesOnly | app.py:129-135 | tables with the same guesses in the same order have the same mean, target and winner |
| Scoring.QuickTestScores | app.py:365-388 | for guesses 300, 250, 400, 350, 200: mean 300, target 200, Eve wins, and the order is Eve, Bob, Alice, Diana, Charlie |
| Scoring.QuickTestRanking | app.py:365-371 | the quick-test players ranked by distance to 200 are Eve, Bob, Alice, Diana, Charlie |
| Scoring.QuickTestTailRanking | app.py:365-371 | the last four quick-test players ranked by distance to 200 are Eve, Bob, Diana, Charlie |
| Draft.HasPicked | app.py:422 | Python truthiness of a stored position (also app.py:473, 484 and 499): a stored 0 counts as not picked |
| Draft.AllSelected | app.py:428 | every player has picked (also app.py:499); AllSelectedIffNoPicker relates it to the current picker |
| Draft.FirstUnpicked | app.py:419-425 | the first index in the selection order without a truthy position, with everyone before it picked; there is none exactly when everyone has picked |
| Draft.FindCurrentPicker | app.py:419-425 | the search loop returns the first player still to pick and that player's index; when there is none the index is 0 and everyone has picked |
| Draft.TakenPositions | app.py:416 | every truthy position is a key, and every key is held by some player whose name it maps to |
| Draft.TakenPositionsExact | app.py:416 | with distinct positions, each held position maps to the name of the player holding it |
| Draft.Picked | app.py:145 | exactly the players with a truthy position, taken from the table |
| Draft.PositionKey | app.py:145 | the sort key of the draft order: a player's stored position |
| Draft.DraftOrder | app.py:145 | the players who have picked, sorted by position; DraftOrderIsSortedByPosition characterises it |
| Draft.DraftOrderIsSortedByPosition | app.py:141-145 | the draft order holds exactly the players who have picked, as a permutation, by increasing position |
| Draft.AllSelectedIffNoPicker | app.py:419-428 | everyone has picked if and only if the selection order has no current picker |
| Draft.PickKeepsSelectionOrder | app.py:478-494 | after a pick, the selection order is the old order with only the picker's entry updated |
| Draft.WinnerPicksFirst | app.py:409-425 | before any pick, the current picker is the winner |
| Simulation.NatToString | app.py:338-339 | `str(n)` is a non-empty run of decimal digits |
| Simulation.DigitRoundTrip | app.py:338-339 | reading back a printed digit gives the digit |
| Simulation.ParseNatToString | app.py:338-339 | reading back `str(n)` gives `n` |
| Simulation.NatToStringInjective | app.py:338-339 | different numbers print differently |
| Simulation.PlaceholderName | app.py:338 | the name `Player n` of a simulated player beyond the pool |
| Simulation.PlaceholderEmail | app.py:339 | the email `playern@testleague.com` of a simulated player beyond the pool; PlaceholderEmailsDistinct shows different numbers give different emails |
| Simulation.SimulatedName | app.py:328-338 | the name of the i-th simulated player: the pool's i-th name, or the placeholder for i + 1 beyond the pool |
| Simulation.SimulatedEmail | app.py:328-339 | the email of the i-th simulated player, chosen in the same way; SimulatedEmailsDistinct shows no two coincide |
| Simulation.SimulatedPlayer | app.py:332-342 | the i-th simulated row: id i + 1, its name, email and guess, and no position; SimulatedPlayers builds exactly these |
| Simulation.PlaceholderEmailsDistinct | app.py:339 | placeholder emails for different numbers differ |
| Simulation.SimulatedEmailsDistinct | app.py:327-344 | when no pool email repeats or starts with 'p', no two simulated players share an email |
| Simulation.NextIdOfNumbered | app.py:332-342 | a table with ids 1 to n gives the next row id n + 1 |
| Simulation.DummyNamesWellFormed | app.py:291-322 | the simulation's 30 pool emails are distinct and none starts with 'p' |
| Simulation.PoolEntry | app.py:291-322 | each pool entry sits in its block of ten |
| Simulation.PoolEmailsDistinct | app.py:291-322 | two different pool entries have different emails |
| Simulation.PoolEmailNotPlaceholder | app.py:291-322 | no pool email is empty or starts with 'p' |
| Simulation.ExtendSimulated | app.py:327-344 | appending the next pool or placeholder row, with the next row id, extends the run of simulated players by one |
| Simulation.SimulatedPlayers | app.py:325-344 | `num_players` rows when it is positive and none otherwise; row i has id i+1, the i-th pool entry or the placeholder `Player i+1`, and the i-th random guess |
| Game.EmailTaken | app.py:110-111 | some player already uses the email; SubmitGuess rejects exactly those with DuplicateEmail |
| Game.PositionHeld | app.py:467-468 | some player's stored position equals the requested one, a stored 0 included; PickAllowedIff uses it |
| Game.Scored | app.py:153-156 | the game-state row after scoring (also app.py:220-223): the winner's id, the target and the mean; ShowResults, AdvancePhase and QuickTestRowIsScored use it |
| Game.PickError | app.py:447-490 | the route's guards in order, with the first failing one's error; CheckPick computes it with the route's loop and PickAllowedIff characterises when it is none |
| Game.ResultsPageOf | app.py:123-161 | for an empty table, an empty page; otherwise the winner, target and mean of the table, the stable ranking by distance to the target (a permutation headed by the winner), and, exactly when someone has picked, the draft order of those who picked |
| Game.Store.constructor | app.py:66-74 | the lazily created row: an empty table in `submission` with no scores |
| Game.Store.SubmitGuess | app.py:85-117 | rejects, in the route's order, a closed phase, an empty name or email, a guess outside [0, 1000] or a known email, changing nothing; otherwise appends one player with a fresh id and no position; the row never changes |
| Game.Store.ShowResults | app.py:123-161 | returns the page for the table; with players, overwrites the row with phase `results` and the table's scores, keeping the invariant |
| Game.Store.AdvancePhase | app.py:198-252 | submission with players goes to results with the scores set; results goes to selecting with nothing else changed; selecting or completed goes to submission with an empty table and no scores; an empty submission changes nothing |
| Game.Store.ResetGame | app.py:255-271 | an empty table and a fresh `submission` row with no scores |
| Game.Store.Simulate | app.py:274-348 | a fresh `submission` row and exactly the simulated players, which keep the invariant (unique ids and emails) |
| Game.Store.QuickTest | app.py:351-393 | the five fixed players and a `results` row with winner 5, target 200 and average 300, which are exactly the scores of those players |
| Game.Store.DraftSelection | app.py:396-441 | rejects outside `selecting` or with no players; otherwise the selection order is the stable ranking by the stored target, the current picker is the first unpicked player in that order (index 0 when there is none), all-selected holds exactly when there is none, and in a valid store the winner shown is the scored winner |
| Game.Store.SelectDraftPosition | app.py:444-509 | rejects, changing nothing, outside `selecting`, for an unknown player, a held position, a player who already picked, or a player who is not the current picker; otherwise sets only that player's position and moves to `completed` exactly when everyone has picked |
| Game.CheckPick | app.py:446-490 | the route's guards, with its picker loop, give the rejection `PickError` names; a pass means a known player who has not picked and a free position |
| Game.PickPreservesScores | app.py:493 | a pick changes no guess, so the mean, target and winner stay the same |
| Game.PickKeepsPositionsDistinct | app.py:467-494 | writing a free position into one row keeps the positions distinct |
| Game.PickKeepsRowFacts | app.py:493 | a pick keeps ids and emails unique and guesses in range |
| Game.PickKeepsConsistent | app.py:493-501 | a pick of a free position during `selecting` keeps the invariant, with the phase the completeness check chooses |
| Game.SimulatedTableConsistent | app.py:282-344 | a simulated table from a well-formed pool, with a fresh row, satisfies the invariant |
| Game.PickAllowedIff | app.py:447-490 | a pick is allowed if and only if the phase is `selecting`, a target is stored, the position is free and the player is the current picker |
| Game.QuickTestConsistent | app.py:351-393 | the quick-test table and its hand-written row satisfy the invariant |
| Game.QuickTestTableWellFormed | app.py:365-375 | the quick-test players have unique positive ids, no positions and guesses in range |
| Game.QuickTestRowIsScored | app.py:378-390 | the hand-written winner, target and average are what scoring computes |
| Game.QuickTestEmailsUnique | app.py:365-371 | the quick-test emails are distinct |

## Left out

- HTTP routing, templates, `flash` messages and redirects. Each route's result is an accepted or rejected outcome, or a page value.
- The admin session login with its fixed password (app.py:14, app.py:41-64). It is access control, not game logic.
- The database session and commits. The table is an in-memory sequence in insertion order, and a route's effect is atomic.
- `int(...)` parsing of form fields and its `ValueError` path (app.py:100-107, app.py:459-460, app.py:507-509). Guesses, player ids and positions arrive as integers.
- The empty-field checks on `guess`, `player_id` and `position` strings (app.py:96, app.py:454-456). Only the name and email checks remain; a number has no empty form.
- `random.randint` in the simulation. It is nondeterministic, so the draws are the `guesses` parameter, constrained to [150, 500].
- The form default of 8 simulated players. The number is a parameter.
- Float arithmetic of `statistics.mean` and `(2/3) *`. Mean and target are exact reals, so the rounding of the stored floats is not modelled.
- The `timestamp` column and the newest-first listing of the index page. Neither affects the game.
- The cases where no game-state row exists yet. The constructor stands for the row the index page creates, and every route is modelled on a store that has it.
- The admin dashboard's display figures (app.py:164-195). They are read-only summaries.
- `TargetMissing`: the source has no such message. Sorting by distance to a missing target raises `TypeError`. In `select_draft_position` that ends in the "invalid player or position" message; in the draft view it is an unhandled error. It cannot occur in a store that keeps the invariant.
- Scoring.ScaledDistance: states the rescaled distance of one guess only. That two players' distances compare as their integer distances do follows from it, but is not stated as a lemma of its own.
- `DEADLINE_ENABLED` and the commented-out deadline. The flag is off and no route reads it.
- `static/script.js`, `init_db.py`, `migrate_db.py`, `wsgi.py` and the `dev/` scripts are not part of this model. They are browser UI, schema set-up, server start-up and data tooling.
