/** The server version's game sessions and the table that stores them
    (assignment2/server.js, HTTP wrapping removed). Each route's state change
    is a method; its answer is an Outcome instead of a status code. Ids are
    the natural numbers behind the server's decimal id strings. */
module ServerGames {
  import opened Vocabulary
  import opened ScoreSheet
  import opened YatzyEngine
  import opened DiceSet
  import opened ServerScoring

  /** How a route ends: Done, or the error it reports. */
  datatype Outcome =
    | Done
    | GameNotFound
    | InvalidIndex
    | GameFinished
    | NoRollsLeft
    | InvalidCategory
    | AlreadyScored

  /** A server-side game: five dice with a hold mask, the rolls left in the
      turn, the score sheet, its total and whether the game is over. */
  class Game {
    const id: nat
    var dice: seq<int>
    var held: seq<bool>
    var rollsLeft: int
    var scores: Sheet
    var total: int
    var finished: bool

    /** The fields the routes keep consistent: five dice with faces 1..6, a
        sheet over all categories whose total is `total`, `finished` set
        exactly when no category is open, and the neutral faces showing
        until the first roll of a turn. */
    ghost predicate Valid()
      reads this
    {
      && |dice| == 5 && |held| == 5 && AllFaces(dice)
      && 0 <= rollsLeft <= 3
      && Covers(scores)
      && total == Total(scores)
      && finished == AllScored(scores)
      && (rollsLeft == 3 ==> dice == NeutralFaces)
    }

    /** `createNewGame` without the table: neutral faces, nothing held, three
        rolls, every category open, total 0, not finished. */
    constructor (id: nat)
      ensures Valid() && this.id == id
      ensures dice == NeutralFaces && held == Released(5) && rollsLeft == 3
      ensures scores == EmptySheet() && total == 0 && !finished
    {
      this.id := id;
      dice := NeutralFaces;
      held := Released(5);
      rollsLeft := 3;
      scores := EmptySheet();
      total := 0;
      finished := false;
      new;
      EmptySheetTotals();
    }

    /** The hold route: an index outside 0..4 is refused; any other index
        flips that one flag, whether or not the turn has been rolled and
        whether or not the game is over. */
    method Hold(index: int) returns (outcome: Outcome)
      requires Valid()
      modifies this
      ensures Valid()
      ensures !(0 <= index <= 4) ==> outcome == InvalidIndex && held == old(held)
      ensures 0 <= index <= 4 ==> outcome == Done && held == Toggled(old(held), index)
      ensures dice == old(dice) && rollsLeft == old(rollsLeft)
      ensures scores == old(scores) && total == old(total) && finished == old(finished)
    {
      if index < 0 || index > 4 {
        return InvalidIndex;
      }
      held := held[index := !held[index]];
      outcome := Done;
    }

    /** The roll route: a finished game is refused first, then a turn with no
        rolls left; otherwise every un-held die takes its draw and one roll is
        used up. */
    method Roll(draws: seq<int>) returns (outcome: Outcome)
      requires Valid() && |draws| == 5 && AllFaces(draws)
      modifies this
      ensures Valid()
      ensures old(finished) ==> outcome == GameFinished
      ensures !old(finished) && old(rollsLeft) <= 0 ==> outcome == NoRollsLeft
      ensures outcome != Done ==> dice == old(dice) && rollsLeft == old(rollsLeft)
      ensures outcome == Done <==> !old(finished) && old(rollsLeft) > 0
      ensures outcome == Done ==>
                dice == Rolled(old(dice), held, draws) && rollsLeft == old(rollsLeft) - 1
      ensures outcome == Done ==>
                forall i :: 0 <= i < 5 ==> (held[i] ==> dice[i] == old(dice)[i]) && IsFace(dice[i])
      ensures held == old(held) && scores == old(scores)
      ensures total == old(total) && finished == old(finished)
    {
      if finished {
        return GameFinished;
      }
      if rollsLeft <= 0 {
        return NoRollsLeft;
      }
      ghost var target := Rolled(dice, held, draws);
      var faces := dice;
      var i := 0;
      while i < |faces|
        invariant |faces| == 5 && 0 <= i <= 5
        invariant forall k :: 0 <= k < i ==> faces[k] == target[k]
        invariant forall k :: i <= k < 5 ==> faces[k] == dice[k]
      {
        if !held[i] {
          faces := faces[i := draws[i]];
        }
        i := i + 1;
      }
      assert faces == target;
      ghost var before := dice;
      dice := faces;
      rollsLeft := rollsLeft - 1;
      outcome := Done;
      forall k | 0 <= k < 5
        ensures held[k] ==> dice[k] == before[k]
      {
        RolledKeepsHeld(before, held, draws, k);
      }
    }

    /** The score route: a tag that names no category is refused, and so is a
        category already scored, so a recorded score is never overwritten.
        Otherwise the category gets `computeScore` of the current dice (no
        roll is required first), the total is recomputed, a new turn starts,
        and the game is finished exactly when that category was the last
        open one. */
    method Score(tag: Label) returns (outcome: Outcome, points: int)
      requires Valid()
      modifies this
      ensures Valid()
      ensures tag == Unrecognised ==> outcome == InvalidCategory
      ensures tag.Known? && old(scores)[tag.cat].Some? ==> outcome == AlreadyScored
      ensures old(finished) ==> outcome != Done
      ensures outcome != Done ==>
                scores == old(scores) && total == old(total) && finished == old(finished)
                && dice == old(dice) && held == old(held) && rollsLeft == old(rollsLeft)
      ensures outcome == Done <==> tag.Known? && old(scores)[tag.cat] == None
      ensures outcome == Done ==>
                && points == ComputeScore(tag, old(dice))
                && scores == old(scores)[tag.cat := Some(points)]
                && total == old(total) + points
                && Scored(scores) == Scored(old(scores)) + 1
                && (finished <==> Scored(old(scores)) + 1 == |AllCategories|)
                && rollsLeft == 3 && dice == NeutralFaces && held == Released(5)
      ensures forall c :: old(scores)[c].Some? ==> scores[c] == old(scores)[c]
    {
      points := 0;
      if tag == Unrecognised {
        return InvalidCategory, points;
      }
      var c := tag.cat;
      if scores[c] != None {
        return AlreadyScored, points;
      }
      points := ComputeScore(tag, dice);
      Record(c, points);
      outcome := Done;
    }

    /** The state change of a successful score: the points go into the open
        category, the total is recomputed from the sheet, a new turn starts
        and `finished` says whether any category is still open. */
    method Record(c: Category, points: int)
      requires Valid() && scores[c] == None
      modifies this
      ensures Valid()
      ensures scores == old(scores)[c := Some(points)]
      ensures total == old(total) + points
      ensures Scored(scores) == Scored(old(scores)) + 1
      ensures finished <==> Scored(old(scores)) + 1 == |AllCategories|
      ensures rollsLeft == 3 && dice == NeutralFaces && held == Released(5)
    {
      RecordScore(scores, c, points);
      scores := scores[c := Some(points)];
      total := Total(scores);
      rollsLeft := 3;
      dice := NeutralFaces;
      held := Released(5);
      finished := AllScored(scores);
    }
  }

  /** Scoring before the first roll of a turn scores the neutral faces
      1, 2, 3, 4, 5: a Large Straight and a Small Straight straight away. */
  lemma ScoreBeforeRoll(g: Game)
    requires g.Valid() && g.rollsLeft == 3
    ensures ComputeScore(Known(LargeStraight), g.dice) == 40
    ensures ComputeScore(Known(SmallStraight), g.dice) == 30
  {
    assert IsHand(NeutralFaces);
    ScorersAgree(Known(LargeStraight), NeutralFaces);
    ScorersAgree(Known(SmallStraight), NeutralFaces);
    LargeStraightExample();
    LargeStraightIsSmallStraight(NeutralFaces);
  }

  /** The in-memory table `games` and the counter `nextId` that numbers the
      games it creates. */
  class GameStore {
    var games: map<nat, Game>
    var nextId: nat

    /** Every stored game is valid and stored under its own id, and every
        id issued so far is below `nextId`. Since a game's id never changes,
        no game is stored under two ids. */
    ghost predicate Valid()
      reads this, games.Values
    {
      && nextId >= 1
      && forall k :: k in games ==> k < nextId && games[k].id == k && games[k].Valid()
    }

    /** The empty table; the first id is 1. */
    constructor ()
      ensures Valid() && games == map[] && nextId == 1
    {
      games := map[];
      nextId := 1;
    }

    /** `createNewGame`: stores a new game under the next id and advances the
        counter, so the id was never issued before. */
    method Create() returns (g: Game)
      requires Valid()
      modifies this
      ensures Valid() && fresh(g)
      ensures g.id == old(nextId) && g.id !in old(games)
      ensures forall k :: k in old(games) ==> k < g.id
      ensures games == old(games)[g.id := g] && nextId == old(nextId) + 1
      ensures g.dice == NeutralFaces && g.held == Released(5) && g.rollsLeft == 3
      ensures g.scores == EmptySheet() && g.total == 0 && !g.finished
    {
      g := new Game(nextId);
      games := games[nextId := g];
      nextId := nextId + 1;
    }

    /** `getGame`: the game stored under `id`, or nothing (not found). */
    method Get(id: nat) returns (r: Option<Game>)
      ensures r.Some? <==> id in games
      ensures r.Some? ==> r.value == games[id]
    {
      if id in games {
        r := Some(games[id]);
      } else {
        r := None;
      }
    }

    /** The delete route: removes the entry if there is one; an unknown id is
        a no-op. The counter is not rewound. */
    method Delete(id: nat)
      requires Valid()
      modifies this
      ensures Valid()
      ensures games == old(games) - {id} && nextId == old(nextId)
      ensures id !in old(games) ==> games == old(games)
    {
      if id in games {
        games := games - {id};
      }
    }

    /** The hold route on a stored game: not found for an unknown id;
        otherwise `Game.Hold` on that game, and no other game changes. */
    method HoldGame(id: nat, index: int) returns (outcome: Outcome)
      requires Valid()
      modifies if id in games then {games[id]} else {}
      ensures Valid() && games == old(games) && nextId == old(nextId)
      ensures id !in games ==> outcome == GameNotFound
      ensures id in games ==> (outcome == Done <==> 0 <= index <= 4)
      ensures id in games ==>
                && games[id].held == Toggled(old(games[id].held), index)
                && games[id].dice == old(games[id].dice)
                && games[id].rollsLeft == old(games[id].rollsLeft)
                && games[id].scores == old(games[id].scores)
                && games[id].total == old(games[id].total)
                && games[id].finished == old(games[id].finished)
    {
      var found := Get(id);
      if found == None {
        return GameNotFound;
      }
      outcome := found.value.Hold(index);
    }

    /** The roll route on a stored game: not found for an unknown id;
        otherwise `Game.Roll` on that game, and no other game changes. */
    method RollGame(id: nat, draws: seq<int>) returns (outcome: Outcome)
      requires Valid() && |draws| == 5 && AllFaces(draws)
      modifies if id in games then {games[id]} else {}
      ensures Valid() && games == old(games) && nextId == old(nextId)
      ensures id !in games ==> outcome == GameNotFound
      ensures id in games ==>
                (outcome == Done <==> !old(games[id].finished) && old(games[id].rollsLeft) > 0)
      ensures id in games && outcome == Done ==>
                && games[id].dice == Rolled(old(games[id].dice), games[id].held, draws)
                && games[id].rollsLeft == old(games[id].rollsLeft) - 1
      ensures id in games && outcome != Done ==>
                games[id].dice == old(games[id].dice) && games[id].rollsLeft == old(games[id].rollsLeft)
      ensures id in games ==>
                && games[id].held == old(games[id].held)
                && games[id].scores == old(games[id].scores)
                && games[id].total == old(games[id].total)
                && games[id].finished == old(games[id].finished)
    {
      var found := Get(id);
      if found == None {
        return GameNotFound;
      }
      outcome := found.value.Roll(draws);
    }

    /** The score route on a stored game: not found for an unknown id;
        otherwise `Game.Score` on that game, and no other game changes. */
    method ScoreGame(id: nat, tag: Label) returns (outcome: Outcome, points: int)
      requires Valid()
      modifies if id in games then {games[id]} else {}
      ensures Valid() && games == old(games) && nextId == old(nextId)
      ensures id !in games ==> outcome == GameNotFound
      ensures id in games ==>
                (outcome == Done <==> tag.Known? && old(games[id].scores)[tag.cat] == None)
      ensures id in games && outcome == Done ==>
                && points == ComputeScore(tag, old(games[id].dice))
                && games[id].scores == old(games[id].scores)[tag.cat := Some(points)]
                && games[id].total == old(games[id].total) + points
                && (games[id].finished <==> Scored(old(games[id].scores)) + 1 == |AllCategories|)
                && games[id].rollsLeft == 3 && games[id].dice == NeutralFaces
                && games[id].held == Released(5)
      ensures id in games && outcome != Done ==>
                && games[id].scores == old(games[id].scores)
                && games[id].total == old(games[id].total)
                && games[id].finished == old(games[id].finished)
                && games[id].dice == old(games[id].dice)
                && games[id].held == old(games[id].held)
                && games[id].rollsLeft == old(games[id].rollsLeft)
    {
      points := 0;
      var found := Get(id);
      if found == None {
        return GameNotFound, points;
      }
      outcome, points := found.value.Score(tag);
    }
  }
}
