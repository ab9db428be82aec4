/** The browser version's game session (YatzyGame in assignment1), without
    the page: the round, the rolls left in the turn, the running total, the
    flag that the current turn has been scored, the five Dice and, in place of
    the "scored" marks on the score-sheet rows, a sheet from each category to
    the points recorded for it. */
module BrowserGame {
  import opened Vocabulary
  import opened ScoreSheet
  import opened YatzyEngine
  import opened DiceSet

  /** What a click on a score-sheet row does. */
  datatype Click =
    | AlreadyFilled
    | RollFirst
    | Recorded(points: int, gameOver: bool)

  class YatzyGame {
    var round: int
    var rollsLeft: int
    var totalScore: int
    var turnScored: bool
    var scored: Sheet
    const dice: Dice

    /** Five dice showing faces 1..6, a sheet over all categories whose
        points add up to `totalScore`, a round one past the number of scored
        categories, and at most three rolls per turn. */
    ghost predicate Valid()
      reads this, dice, dice.values
    {
      && dice.Valid() && dice.numDice == 5
      && AllFaces(dice.values[..])
      && Covers(scored)
      && totalScore == Total(scored)
      && round == 1 + Scored(scored)
      && 0 <= rollsLeft <= 3
    }

    /** A scored turn has not been rolled again yet. */
    ghost predicate TurnClosed()
      reads this
    {
      turnScored ==> rollsLeft == 3
    }

    /** `new YatzyGame()`: round 1, three rolls, total 0, five fresh dice
        showing 1 with none held, and every row of the sheet open. */
    constructor ()
      ensures Valid() && TurnClosed() && fresh(dice) && fresh(dice.values) && fresh(dice.held)
      ensures round == 1 && rollsLeft == 3 && totalScore == 0 && !turnScored
      ensures scored == EmptySheet()
      ensures dice.values[..] == [1, 1, 1, 1, 1] && dice.held[..] == Released(5)
    {
      round := 1;
      rollsLeft := 3;
      totalScore := 0;
      turnScored := false;
      scored := EmptySheet();
      dice := new Dice(5);
      new;
      EmptySheetTotals();
      assert dice.values[..] == [1, 1, 1, 1, 1];
    }

    /** The loop that shows the neutral faces 1..5 between turns. */
    method ShowNeutralFaces()
      requires dice.Valid() && dice.numDice == 5
      modifies dice.values
      ensures dice.values[..] == NeutralFaces
    {
      var i := 0;
      while i < dice.numDice
        invariant 0 <= i <= 5
        invariant forall k :: 0 <= k < i ==> dice.values[k] == k + 1
      {
        dice.values[i] := i + 1;
        i := i + 1;
      }
    }

    /** `startNewGame`: round 1, three rolls, total 0, the turn not scored,
        every row open, holds released and the faces 1..5. */
    method StartNewGame()
      requires Valid()
      modifies this, dice, dice.values
      ensures Valid() && TurnClosed()
      ensures round == 1 && rollsLeft == 3 && totalScore == 0 && !turnScored
      ensures scored == EmptySheet()
      ensures dice.held[..] == Released(5) && dice.values[..] == NeutralFaces
      ensures fresh(dice.held)
    {
      round := 1;
      rollsLeft := 3;
      totalScore := 0;
      turnScored := false;
      scored := EmptySheet();
      EmptySheetTotals();
      dice.ReleaseAll();
      ShowNeutralFaces();
    }

    /** `rollDice`: nothing when no roll is left; otherwise the dice roll,
        one roll is used up and the turn counts as not scored. */
    method RollDice(draws: seq<int>)
      requires Valid() && |draws| == 5 && AllFaces(draws)
      modifies this, dice.values
      ensures Valid()
      ensures old(TurnClosed()) ==> TurnClosed()
      ensures old(rollsLeft) <= 0 ==>
                rollsLeft == old(rollsLeft) && turnScored == old(turnScored)
                && dice.values[..] == old(dice.values[..])
      ensures old(rollsLeft) > 0 ==>
                && dice.values[..] == Rolled(old(dice.values[..]), dice.held[..], draws)
                && rollsLeft == old(rollsLeft) - 1 && !turnScored
      ensures dice.held[..] == old(dice.held[..])
      ensures round == old(round) && totalScore == old(totalScore) && scored == old(scored)
    {
      if rollsLeft <= 0 {
        return;
      }
      var _ := dice.Roll(draws);
      rollsLeft := rollsLeft - 1;
      turnScored := false;
    }

    /** `toggleHold`: nothing before the first roll of a turn; otherwise the
        die's hold flag is toggled as Dice.ToggleHold does. */
    method ToggleHold(index: int)
      requires Valid()
      modifies dice.held
      ensures Valid()
      ensures rollsLeft == 3 ==> dice.held[..] == old(dice.held[..])
      ensures rollsLeft != 3 ==> dice.held[..] == Toggled(old(dice.held[..]), index)
      ensures dice.values[..] == old(dice.values[..])
    {
      if rollsLeft == 3 {
        return;
      }
      dice.ToggleHold(index);
    }

    /** `forceEndTurn`: nothing before the first roll or once the turn is
        scored; otherwise no roll is left, so the next step is a category. */
    method ForceEndTurn()
      requires Valid()
      modifies this
      ensures Valid()
      ensures old(TurnClosed()) ==> TurnClosed()
      ensures old(rollsLeft) == 3 || old(turnScored) ==> rollsLeft == old(rollsLeft)
      ensures old(rollsLeft) != 3 && !old(turnScored) ==> rollsLeft == 0
      ensures round == old(round) && totalScore == old(totalScore) && scored == old(scored)
      ensures turnScored == old(turnScored)
    {
      if rollsLeft == 3 {
        return;
      }
      if turnScored {
        return;
      }
      rollsLeft := 0;
    }

    /** `handleCategoryClick`: a filled row is refused, and so is any row
        before the first roll of a turn; otherwise the engine's points for
        the dice go into the row and the total, the next round starts with
        three rolls, released holds and the faces 1..5, and the game is over
        exactly when no row is left open. */
    method HandleCategoryClick(c: Category) returns (click: Click)
      requires Valid()
      modifies this, dice, dice.values
      ensures Valid()
      ensures old(TurnClosed()) ==> TurnClosed()
      ensures old(scored)[c].Some? ==> click == AlreadyFilled
      ensures old(scored)[c] == None && old(rollsLeft) == 3 ==> click == RollFirst
      ensures !click.Recorded? ==>
                && scored == old(scored) && totalScore == old(totalScore)
                && round == old(round) && rollsLeft == old(rollsLeft)
                && turnScored == old(turnScored)
                && dice.values[..] == old(dice.values[..]) && dice.held == old(dice.held)
      ensures click.Recorded? <==> old(scored)[c] == None && old(rollsLeft) != 3
      ensures click.Recorded? ==>
                && click.points == Score(Known(c), old(dice.values[..]))
                && scored == old(scored)[c := Some(click.points)]
                && totalScore == old(totalScore) + click.points
                && round == old(round) + 1
                && turnScored && rollsLeft == 3
                && dice.held[..] == Released(5) && dice.values[..] == NeutralFaces
                && (click.gameOver <==> AllScored(scored))
                && (click.gameOver <==> Scored(old(scored)) + 1 == |AllCategories|)
      ensures click.Recorded? ==> fresh(dice.held)
    {
      if scored[c] != None {
        return AlreadyFilled;
      }
      if rollsLeft == 3 {
        return RollFirst;
      }
      var points := Score(Known(c), dice.values[..]);
      RecordScore(scored, c, points);
      scored := scored[c := Some(points)];
      totalScore := totalScore + points;
      turnScored := true;
      round := round + 1;
      rollsLeft := 3;
      dice.ReleaseAll();
      ShowNeutralFaces();
      var remaining := !AllScored(scored);
      click := Recorded(points, !remaining);
    }
  }
}
