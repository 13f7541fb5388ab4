/** The game's routes as operations on one in-memory store: the player
    table and the game-state row. */
module Game {
  import opened Wrappers
  import opened Models
  import opened Sorting
  import opened Scoring
  import opened Draft
  import opened Simulation

  /** Why a route refuses a request (the message it flashes). */
  datatype Error =
    | SubmissionClosed   // phase is not 'submission'
    | MissingField       // name or email empty
    | GuessOutOfRange    // guess outside [0, 1000]
    | DuplicateEmail     // this email has already submitted
    | NotSelecting       // phase is not 'selecting'
    | NoPlayers          // the draft view has nobody to show
    | TargetMissing      // no stored target: the source's sort raises TypeError
    | PlayerNotFound     // no player with that id
    | PositionTaken      // some player already holds the position
    | AlreadyPicked      // the player already holds a position
    | NotYourTurn        // the player is not the current picker

  datatype Outcome = Accepted | Rejected(reason: Error)

  /** Some player in the table already uses `email`. */
  predicate EmailTaken(ps: seq<Player>, email: string) {
    exists i :: 0 <= i < |ps| && ps[i].email == email
  }

  predicate UniqueEmails(ps: seq<Player>) {
    forall i, j :: 0 <= i < |ps| && 0 <= j < |ps| && i != j ==> ps[i].email != ps[j].email
  }

  /** Some player's stored position equals `pos`. The lookup compares the
      stored value itself, so a stored 0 does hold position 0. */
  predicate PositionHeld(ps: seq<Player>, pos: int) {
    exists i :: 0 <= i < |ps| && ps[i].draftPosition == Some(pos)
  }

  /** The game-state row right after scoring `ps`. */
  function Scored(phase: Phase, ps: seq<Player>): (s: GameState)
    requires |ps| > 0
  {
    GameState(phase, Some(ps[WinnerIndex(ps)].id), Some(Target(ps)), Some(Mean(ps)))
  }

  /** What the results page shows. */
  datatype ResultsPage = ResultsPage(
    ranked: seq<Player>,
    winner: Option<Player>,
    target: Option<real>,
    average: Option<real>,
    draftOrder: Option<seq<Player>>,
    draftPositionsSelected: bool)

  /** The results view's computation over the player table. */
  function ResultsPageOf(ps: seq<Player>): (page: ResultsPage)
    ensures ps == [] ==> page == ResultsPage([], None, None, None, None, false)
    ensures ps != [] ==> page.winner == Some(ps[WinnerIndex(ps)]) && page.target == Some(Target(ps)) &&
                         page.average == Some(Mean(ps))
    ensures multiset(page.ranked) == multiset(ps)
    ensures ps != [] ==> page.ranked == Ranked(ps, Target(ps))
    ensures page.draftOrder.Some? ==> page.draftOrder.value == DraftOrder(ps)
    ensures ps != [] ==> |page.ranked| == |ps| && page.winner == Some(page.ranked[0])
    ensures page.draftPositionsSelected <==> exists i :: 0 <= i < |ps| && HasPicked(ps[i])
    ensures page.draftOrder.Some? <==> page.draftPositionsSelected
    ensures page.draftOrder.Some? ==> forall x :: x in page.draftOrder.value <==> x in ps && HasPicked(x)
  {
    if ps == [] then ResultsPage([], None, None, None, None, false)
    else
      var target := Target(ps);
      var selected := exists i :: 0 <= i < |ps| && HasPicked(ps[i]);
      RankedIsStableSort(ps, target);
      WinnerLeadsRanking(ps);
      DraftOrderIsSortedByPosition(ps);
      ResultsPage(Ranked(ps, target), Some(ps[WinnerIndex(ps)]), Some(target), Some(Mean(ps)),
                  if selected then Some(DraftOrder(ps)) else None, selected)
  }

  /** What the draft-selection page shows. */
  datatype DraftBoard = DraftBoard(
    winner: Option<Player>,
    target: real,
    average: Option<real>,
    selectionOrder: seq<Player>,
    takenPositions: map<int, string>,
    currentPicker: Option<Player>,
    currentPickerIndex: nat,
    totalPlayers: nat,
    allSelected: bool)

  /** The checks of `select_draft_position`, in the order the route makes
      them; `None` when the pick is allowed. */
  function PickError(s: GameState, ps: seq<Player>, playerId: int, position: int): Option<Error>
  {
    if s.phase != Selecting then Some(NotSelecting)
    else match IndexOfId(ps, playerId)
      case None => Some(PlayerNotFound)
      case Some(k) =>
        if PositionHeld(ps, position) then Some(PositionTaken)
        else if HasPicked(ps[k]) then Some(AlreadyPicked)
        else if s.target.None? then Some(TargetMissing)
        else match FirstUnpicked(Ranked(ps, s.target.value))
          case None => Some(NotYourTurn)
          case Some(c) => if Ranked(ps, s.target.value)[c].id != playerId then Some(NotYourTurn) else None
  }

  /** The invariant of the store: unique positive ids, unique emails,
      guesses in range,
      distinct positions; no scores and no picks during submission; in every
      later phase a non-empty table whose scores are the stored ones; and
      every player placed once the draft is completed. */
  ghost predicate Consistent(s: GameState, ps: seq<Player>) {
    && UniqueIds(ps)
    && UniqueEmails(ps)
    && (forall i :: 0 <= i < |ps| ==> ps[i].id >= 1 && MinGuess <= ps[i].guess <= MaxGuess)
    && DistinctPositions(ps)
    && (s.phase == Submission ==> s == FreshState && NoPositions(ps))
    && (s.phase != Submission ==> ps != [] && s == Scored(s.phase, ps))
    && (s.phase == Completed ==> AllSelected(ps))
  }

  class Store {
    var players: seq<Player>
    var state: GameState

    /** What every route keeps true of the table and the row. */
    ghost predicate Valid()
      reads this
    {
      Consistent(state, players)
    }

    /** The state the index page creates when no game-state row exists. */
    constructor ()
      ensures Valid()
      ensures players == [] && state == FreshState
    {
      players := [];
      state := FreshState;
    }

    /** `submit_guess`: one new player when the phase is 'submission', both
        fields are present, the guess is in range and the email is new. */
    method SubmitGuess(name: string, email: string, guess: int) returns (outcome: Outcome)
      requires Valid()
      modifies this
      ensures Valid()
      ensures outcome ==
        if old(state).phase != Submission then Rejected(SubmissionClosed)
        else if name == [] || email == [] then Rejected(MissingField)
        else if guess < MinGuess || guess > MaxGuess then Rejected(GuessOutOfRange)
        else if EmailTaken(old(players), email) then Rejected(DuplicateEmail)
        else Accepted
      ensures outcome.Accepted? ==> players == old(players) + [Player(NextId(old(players)), name, email, guess, None)]
      ensures outcome.Rejected? ==> players == old(players)
      ensures state == old(state)
    {
      if state.phase != Submission {
        return Rejected(SubmissionClosed);
      }
      if name == [] || email == [] {
        return Rejected(MissingField);
      }
      if guess < MinGuess || guess > MaxGuess {
        return Rejected(GuessOutOfRange);
      }
      if EmailTaken(players, email) {
        return Rejected(DuplicateEmail);
      }
      players := players + [Player(NextId(players), name, email, guess, None)];
      outcome := Accepted;
    }

    /** The results view: with any players it scores them and overwrites
        the row with phase 'results', whatever the phase was. */
    method ShowResults() returns (page: ResultsPage)
      requires Valid()
      modifies this
      ensures Valid()
      ensures page == ResultsPageOf(old(players))
      ensures players == old(players)
      ensures old(players) == [] ==> state == old(state)
      ensures old(players) != [] ==> state == Scored(Results, players)
    {
      page := ResultsPageOf(players);
      if players != [] {
        state := state.(phase := Results, winnerId := Some(players[WinnerIndex(players)].id),
                        target := Some(Target(players)), average := Some(Mean(players)));
      }
    }

    /** `advance_phase`: submission (with players) -> results -> selecting,
        and selecting or completed -> submission with an empty table. */
    method AdvancePhase()
      requires Valid()
      modifies this
      ensures Valid()
      ensures old(state).phase == Submission && old(players) != [] ==>
        players == old(players) && state == Scored(Results, players)
      ensures old(state).phase == Submission && old(players) == [] ==>
        players == old(players) && state == old(state)
      ensures old(state).phase == Results ==>
        players == old(players) && state == old(state).(phase := Selecting)
      ensures old(state).phase == Selecting || old(state).phase == Completed ==>
        players == [] && state == FreshState
    {
      if state.phase == Submission && players != [] {
        var average := Mean(players);
        var target := Target(players);
        var winner := players[WinnerIndex(players)];
        state := state.(phase := Results, winnerId := Some(winner.id), target := Some(target), average := Some(average));
      } else if state.phase == Results {
        state := state.(phase := Selecting);
      } else if state.phase == Selecting {
        state := state.(phase := Submission, winnerId := None, target := None, average := None);
        players := [];
      } else if state.phase == Completed {
        state := state.(phase := Submission, winnerId := None, target := None, average := None);
        players := [];
      }
    }

    /** `reset_game`: an empty table and a fresh 'submission' row. */
    method ResetGame()
      modifies this
      ensures Valid()
      ensures players == [] && state == FreshState
    {
      players := [];
      state := FreshState;
    }

    /** `simulate_game`: the table and the row are recreated and filled
        with `numPlayers` simulated players (none when it is not positive);
        `guesses` stands for the successive `random.randint(150, 500)` draws. */
    method Simulate(numPlayers: int, guesses: seq<int>)
      requires numPlayers <= |guesses|
      requires forall i :: 0 <= i < |guesses| ==> MinSimulatedGuess <= guesses[i] <= MaxSimulatedGuess
      modifies this
      ensures Valid()
      ensures state == FreshState
      ensures |players| == if numPlayers > 0 then numPlayers else 0
      ensures forall i :: 0 <= i < |players| ==> players[i] == SimulatedPlayer(DummyNames, i, guesses[i])
    {
      var added := SimulatedPlayers(DummyNames, numPlayers, guesses);
      DummyNamesWellFormed();
      SimulatedTableConsistent(DummyNames, added, guesses);
      players := added;
      state := FreshState;
    }

    /** `quick_test`: the five fixed players and a 'results' row whose
        winner, target and average are written in by hand (Eve, 200, 300);
        the invariant shows they are exactly what scoring computes. */
    method QuickTest()
      modifies this
      ensures Valid()
      ensures players == QuickTestPlayers
      ensures state == GameState(Results, Some(5), Some(200.0), Some(300.0))
    {
      players := QuickTestPlayers;
      state := GameState(Results, Some(5), Some(200.0), Some(300.0));
      QuickTestConsistent();
    }

    /** The draft-selection view. */
    method DraftSelection() returns (r: Result<DraftBoard, Error>)
      ensures state.phase != Selecting ==> r == Failure(NotSelecting)
      ensures state.phase == Selecting && players == [] ==> r == Failure(NoPlayers)
      ensures state.phase == Selecting && players != [] && state.target.None? ==> r == Failure(TargetMissing)
      ensures r.Success? ==>
        && state.phase == Selecting && players != [] && state.target.Some?
        && r.value.target == state.target.value
        && r.value.average == state.average
        && (r.value.winner.Some? <==>
              state.winnerId.Some? && state.winnerId.value != 0 && IndexOfId(players, state.winnerId.value).Some?)
        && (r.value.winner.Some? ==> r.value.winner.value == players[IndexOfId(players, state.winnerId.value).value])
        && r.value.selectionOrder == Ranked(players, state.target.value)
        && r.value.currentPicker.Some? == (FirstUnpicked(r.value.selectionOrder) == Some(r.value.currentPickerIndex))
        && (r.value.currentPicker.None? ==> r.value.currentPickerIndex == 0)
        && (r.value.currentPicker.Some? ==> r.value.currentPicker.value == r.value.selectionOrder[r.value.currentPickerIndex])
        && r.value.allSelected == AllSelected(players)
        && (r.value.allSelected <==> r.value.currentPicker.None?)
        && r.value.takenPositions == TakenPositions(players)
        && r.value.totalPlayers == |players|
      ensures Valid() && state.phase == Selecting ==> r.Success? && r.value.winner == Some(players[WinnerIndex(players)])
    {
      if state.phase != Selecting {
        return Failure(NotSelecting);
      }
      if players == [] {
        return Failure(NoPlayers);
      }
      var winner: Option<Player> := None;
      if state.winnerId.Some? && state.winnerId.value != 0 {
        match IndexOfId(players, state.winnerId.value)
        case Some(w) => winner := Some(players[w]);
        case None =>
      }
      if state.target.None? {
        return Failure(TargetMissing);
      }
      var target := state.target.value;
      var order := Ranked(players, target);
      var picker, index := FindCurrentPicker(order);
      var allSelected := AllSelected(players);
      AllSelectedIffNoPicker(players, target);
      var board := DraftBoard(winner, target, state.average, order, TakenPositions(players),
                              picker, index, |players|, allSelected);
      return Success(board);
    }

    /** `select_draft_position`: the current picker claims a free position;
        when that fills every slot the phase becomes 'completed'. */
    method SelectDraftPosition(playerId: int, position: int) returns (outcome: Outcome)
      requires Valid()
      modifies this
      ensures Valid()
      ensures outcome == (if PickError(old(state), old(players), playerId, position).Some?
                          then Rejected(PickError(old(state), old(players), playerId, position).value)
                          else Accepted)
      ensures outcome.Rejected? ==> players == old(players) && state == old(state)
      ensures outcome.Accepted? ==>
        && IndexOfId(old(players), playerId).Some?
        && (var k := IndexOfId(old(players), playerId).value;
            players == old(players)[k := old(players)[k].(draftPosition := Some(position))])
        && state == old(state).(phase := if AllSelected(players) then Completed else Selecting)
    {
      var error := CheckPick(state, players, playerId, position);
      if error.Some? {
        return Rejected(error.value);
      }
      var k := IndexOfId(players, playerId).value;
      PickKeepsConsistent(state, players, k, position);
      players := players[k := players[k].(draftPosition := Some(position))];
      if AllSelected(players) {
        state := state.(phase := Completed);
      }
      outcome := Accepted;
    }
  }

  /** The guards of `select_draft_position` run against the table, in the
      route's order, with its loop for the current picker. */
  method CheckPick(s: GameState, ps: seq<Player>, playerId: int, position: int) returns (error: Option<Error>)
    ensures error == PickError(s, ps, playerId, position)
    ensures error.None? ==> IndexOfId(ps, playerId).Some? && !PositionHeld(ps, position) &&
                            !HasPicked(ps[IndexOfId(ps, playerId).value])
  {
    if s.phase != Selecting {
      return Some(NotSelecting);
    }
    var found := IndexOfId(ps, playerId);
    if found.None? {
      return Some(PlayerNotFound);
    }
    var k := found.value;
    if PositionHeld(ps, position) {
      return Some(PositionTaken);
    }
    if HasPicked(ps[k]) {
      return Some(AlreadyPicked);
    }
    if s.target.None? {
      return Some(TargetMissing);
    }
    var order := Ranked(ps, s.target.value);
    var picker, _ := FindCurrentPicker(order);
    if picker.None? || picker.value.id != playerId {
      return Some(NotYourTurn);
    }
    return None;
  }

  /** A pick changes no guess and no id, so the stored scores stay those of
      the table. */
  lemma PickPreservesScores(ps: seq<Player>, k: nat, position: int)
    requires k < |ps|
    ensures var qs := ps[k := ps[k].(draftPosition := Some(position))];
      SameGuesses(ps, qs) && Target(ps) == Target(qs) && Mean(ps) == Mean(qs) &&
      WinnerIndex(ps) == WinnerIndex(qs) && qs[WinnerIndex(qs)].id == ps[WinnerIndex(ps)].id
  {
    var qs := ps[k := ps[k].(draftPosition := Some(position))];
    ScoresDependOnGuessesOnly(ps, qs);
  }

  /** Writing a free position into one row keeps the positions distinct. */
  lemma PickKeepsPositionsDistinct(ps: seq<Player>, k: nat, position: int)
    requires DistinctPositions(ps) && k < |ps| && !PositionHeld(ps, position)
    ensures DistinctPositions(ps[k := ps[k].(draftPosition := Some(position))])
  {
    var qs := ps[k := ps[k].(draftPosition := Some(position))];
    forall i, j | 0 <= i < |qs| && 0 <= j < |qs| && i != j && qs[i].draftPosition.Some?
      ensures qs[i].draftPosition != qs[j].draftPosition
    {
      if i == k {
        assert qs[j] == ps[j];
      } else if j == k {
        assert qs[i] == ps[i];
      }
    }
  }

  /** A pick leaves every row's id, email and guess alone, so the
      invariants about those carry over. */
  lemma PickKeepsRowFacts(ps: seq<Player>, k: nat, position: int)
    requires UniqueIds(ps) && UniqueEmails(ps) && k < |ps|
    requires forall i :: 0 <= i < |ps| ==> ps[i].id >= 1 && MinGuess <= ps[i].guess <= MaxGuess
    ensures var qs := ps[k := ps[k].(draftPosition := Some(position))];
      UniqueIds(qs) && UniqueEmails(qs) &&
      forall i :: 0 <= i < |qs| ==> qs[i].id >= 1 && MinGuess <= qs[i].guess <= MaxGuess
  {
    var qs := ps[k := ps[k].(draftPosition := Some(position))];
    assert forall i :: 0 <= i < |qs| ==> qs[i].email == ps[i].email && qs[i].id == ps[i].id && qs[i].guess == ps[i].guess;
  }

  /** A pick of a free position keeps the invariant, whichever phase the
      completeness check then chooses. */
  lemma PickKeepsConsistent(s: GameState, ps: seq<Player>, k: nat, position: int)
    requires Consistent(s, ps) && s.phase == Selecting && k < |ps| && !PositionHeld(ps, position)
    ensures var qs := ps[k := ps[k].(draftPosition := Some(position))];
      Consistent(s.(phase := if AllSelected(qs) then Completed else Selecting), qs)
  {
    PickPreservesScores(ps, k, position);
    PickKeepsPositionsDistinct(ps, k, position);
    PickKeepsRowFacts(ps, k, position);
  }

  /** A freshly simulated table satisfies the invariant with a fresh row. */
  lemma SimulatedTableConsistent(pool: seq<(string, string)>, ps: seq<Player>, guesses: seq<int>)
    requires PoolWellFormed(pool) && |ps| <= |guesses|
    requires forall i :: 0 <= i < |guesses| ==> MinSimulatedGuess <= guesses[i] <= MaxSimulatedGuess
    requires forall j :: 0 <= j < |ps| ==> ps[j] == SimulatedPlayer(pool, j, guesses[j])
    ensures Consistent(FreshState, ps)
  {
    forall i, j | 0 <= i < |ps| && 0 <= j < |ps| && i != j ensures ps[i].email != ps[j].email {
      SimulatedEmailsDistinct(pool, i, j);
    }
  }

  /** Whatever order the checks run in, a pick goes through exactly when the
      phase is 'selecting', a target is stored, nobody holds the position,
      and the player is the current picker. */
  lemma PickAllowedIff(s: GameState, ps: seq<Player>, playerId: int, position: int)
    requires UniqueIds(ps)
    ensures PickError(s, ps, playerId, position).None? <==>
      s.phase == Selecting && s.target.Some? && !PositionHeld(ps, position) &&
      IsCurrentPicker(ps, s.target.value, playerId)
  {
    if s.phase == Selecting && s.target.Some? && !PositionHeld(ps, position) &&
       IsCurrentPicker(ps, s.target.value, playerId) {
      var order := Ranked(ps, s.target.value);
      var c := FirstUnpicked(order).value;
      RankedIsStableSort(ps, s.target.value);
      assert order[c] in multiset(ps);
      var j :| 0 <= j < |ps| && ps[j] == order[c];
      var k := IndexOfId(ps, playerId).value;
      assert k == j;
    }
  }

  /** The hand-written quick-test row agrees with scoring its players. */
  lemma QuickTestConsistent()
    ensures Consistent(GameState(Results, Some(5), Some(200.0), Some(300.0)), QuickTestPlayers)
  {
    QuickTestRowIsScored();
    QuickTestEmailsUnique();
    QuickTestTableWellFormed();
  }

  lemma QuickTestTableWellFormed()
    ensures UniqueIds(QuickTestPlayers) && DistinctPositions(QuickTestPlayers)
    ensures forall i :: 0 <= i < |QuickTestPlayers| ==>
      QuickTestPlayers[i].id >= 1 && MinGuess <= QuickTestPlayers[i].guess <= MaxGuess
  {
    var ps := QuickTestPlayers;
    assert |ps| == 5;
    forall i | 0 <= i < |ps| ensures ps[i].id == i + 1 && ps[i].draftPosition == None && 200 <= ps[i].guess <= 400 {
    }
  }

  lemma QuickTestRowIsScored()
    ensures Scored(Results, QuickTestPlayers) == GameState(Results, Some(5), Some(200.0), Some(300.0))
  {
    QuickTestScores();
  }

  lemma QuickTestEmailsUnique()
    ensures UniqueEmails(QuickTestPlayers)
  {
    var ps := QuickTestPlayers;
    forall i, j | 0 <= i < |ps| && 0 <= j < |ps| && i != j ensures ps[i].email != ps[j].email {
      assert ps[i].email[0] != ps[j].email[0];
    }
  }
}
