# Yatzy engine — a Dafny model

This project models the rules core of a small Yatzy game that exists in two
versions:

- **The browser version** (`assignment1`) has three parts.
  - `YatzyEngine` is a pure scoring table from a category and the dice faces
    to points.
  - `Dice` is a set of dice with a hold mask. It re-rolls the dice that are
    not held.
  - `YatzyGame` is the session object. It counts rounds and rolls left, keeps
    the running total, and marks the score-sheet rows as they are filled.
- **The server version** (`assignment2/server.js`) keeps an in-memory table of
  games numbered by a counter. Each game holds five dice, a hold mask, the
  rolls left in the turn, a score sheet whose entries are a number or null,
  the total, and a finished flag. The server has its own scorer,
  `computeScore`, and HTTP routes that create, read, hold, roll, score and
  delete a game.

The Dafny modules follow that structure:

- `Vocabulary`: categories, faces and hands.
- `ScoreSheet`: the sheet of the thirteen categories, its total and the
  number of categories scored.
- `YatzyEngine`: the browser scorer. Its functions are stated over any
  number of dice. Lemmas give each category's rule in terms of face counts
  and prove that no score depends on the order of the dice.
- `DiceSet`: the `Dice` class over arrays.
- `ServerScoring`: `computeScore`. The lemma `ScorersAgree` proves that it
  gives the same points as the browser scorer on every hand of five dice.
- `ServerGames`: the server game (class `Game`) and the table of games
  (class `GameStore`). Each route is a method that answers with an
  `Outcome` in place of an HTTP status.
- `BrowserGame`: the `YatzyGame` session. In place of the page's "scored"
  row marks it keeps a score sheet.

Random dice are a parameter. Each roll is handed a sequence `draws` of five
faces in 1..6, one per die.

The model follows the code. In these places the code is looser than the
game's stated rules:

- The server's hold route has no roll guard and no finished guard. Any index
  in 0..4 flips its flag (`ServerGames.Game.Hold`).
- The server's score route does not demand a roll first. A fresh turn shows
  the faces 1, 2, 3, 4, 5, so scoring straight away earns a Large Straight
  (40) or a Small Straight (30) (`ServerGames.ScoreBeforeRoll`).
- A category name that matches no category scores 0 in both scorers.
- In the browser, the "already scored" guard of `forceEndTurn` cannot fire.
  Every scored turn still has three rolls left, and the earlier guard
  catches that. See `TurnClosed` in `BrowserGame.YatzyGame`.

## Model

| member | source | states |
|---|---|---|
| Vocabulary.AllCategoriesListed | assignment2/server.js:29-43 | the sheet's category list holds every one of the thirteen categories, each exactly once |
| ScoreSheet.EmptySheet | assignment2/server.js:29-43 | a new sheet has an entry for every category and every entry is open (null) |
| ScoreSheet.EmptySheetTotals | assignment2/server.js:49-52 | a new sheet totals 0, has nothing scored and is not full |
| ScoreSheet.Total | assignment2/server.js:213-215 | no contract of its own: the sum of the recorded points of the thirteen categories; what scoring does to it is stated by `RecordScore` and `EmptySheetTotals` |
| ScoreSheet.AllScored | assignment2/server.js:223 | no contract of its own: no entry of the sheet is open; `AllScoredIff` ties it to the scored count |
| ScoreSheet.TotalOfRecord | assignment2/server.js:213-215 | filling an open category with `p` adds `p` to the total of any duplicate-free list of categories that contains it, and nothing otherwise |
| ScoreSheet.ScoredOfRecord | assignment2/server.js:210 | filling an open category adds one to the number scored in any duplicate-free list that contains it |
| ScoreSheet.ScoredOfFull | assignment2/server.js:223 | all categories of a list are scored exactly when the scored count equals the list's length |
| ScoreSheet.AllScoredIff | assignment2/server.js:223 | the sheet has no null entry exactly when all thirteen categories are scored |
| ScoreSheet.RecordScore | assignment2/server.js:209-223 | recording `p` in an open category adds exactly `p` to the total and one to the scored count; the sheet becomes full exactly when that category was the last open one, and it was not full before |
| YatzyEngine.Sum | assignment1/yatzyEngine.js:3 | the sum of `n` faces lies between `n` and `6n` |
| YatzyEngine.Count | assignment1/yatzyEngine.js:11-16 | the number of dice showing a face is at most the number of dice, and it is positive exactly when the face is on the dice |
| YatzyEngine.Upper | assignment1/yatzyEngine.js:11-16 | no contract of its own: the count of `face` times `face`; its bounds follow from `Count`, and `UpperAgrees` ties the server's lookup to the same count |
| YatzyEngine.CountIsMultiplicity | assignment1/yatzyEngine.js:11-16 | that count is the face's multiplicity in the multiset of the dice |
| YatzyEngine.Counts | assignment1/yatzyEngine.js:4-8 | the one-pass count table has six entries, and entry `f - 1` equals the number of dice showing `f` |
| YatzyEngine.CountsSumToLength | assignment1/yatzyEngine.js:4-8 | the six counts add up to the number of dice |
| YatzyEngine.CountPairBound | assignment1/yatzyEngine.js:4-8 | two different faces together occupy at most all the dice |
| YatzyEngine.CountAll | assignment1/yatzyEngine.js:32 | a face's count equals the number of dice exactly when every die shows it |
| YatzyEngine.SumByFaces | assignment1/yatzyEngine.js:3 | the sum of the dice is the face-weighted sum of the counts |
| YatzyEngine.MaxOf | assignment1/yatzyEngine.js:18-19 | the maximum of a non-empty list is one of its entries and no entry exceeds it |
| YatzyEngine.MaxReaches | assignment1/yatzyEngine.js:18-19 | the largest count reaches `k` exactly when some face shows on at least `k` dice |
| YatzyEngine.DistinctSorted | assignment1/yatzyEngine.js:25 | the de-duplicated, sorted faces are faces |
| YatzyEngine.DistinctSortedMembers | assignment1/yatzyEngine.js:25 | the de-duplicated, sorted faces hold exactly the faces on the dice |
| YatzyEngine.AppendKeep | assignment1/yatzyEngine.js:25 | appending the copies of face `k` to a strictly ascending list of values below `k` keeps it strictly ascending |
| YatzyEngine.DistinctSortedAscending | assignment1/yatzyEngine.js:25 | the de-duplicated faces are strictly ascending, so each appears once |
| YatzyEngine.Join | assignment1/yatzyEngine.js:25 | joining faces gives one digit per face |
| YatzyEngine.JoinSlice | assignment1/yatzyEngine.js:25 | a slice of the joined string is the join of the slice of the faces |
| YatzyEngine.JoinInjective | assignment1/yatzyEngine.js:29-30 | two face lists with the same joined string are equal |
| YatzyEngine.JoinedRuns | assignment1/yatzyEngine.js:26-30 | the runs 1-2-3-4, 2-3-4-5, 3-4-5-6, 1..5 and 2..6 join to "1234", "2345", "3456", "12345" and "23456" |
| YatzyEngine.Includes | assignment1/yatzyEngine.js:26 | no contract of its own: `p` occurs in `t` at some position; `IncludesMiddle` and `IncludesRunSound` state what it finds |
| YatzyEngine.IncludesRunSound | assignment1/yatzyEngine.js:24-27 | if the joined distinct faces contain the string of a four-face run, every face of the run is on the dice |
| YatzyEngine.RunSplit | assignment1/yatzyEngine.js:25 | when a run `a..a+3` is on the dice, the distinct sorted faces are some faces, then exactly that run, then some faces |
| YatzyEngine.IncludesMiddle | assignment1/yatzyEngine.js:26 | the join of `pre + run + post` contains the join of `run` |
| YatzyEngine.IncludesRunComplete | assignment1/yatzyEngine.js:24-27 | if all four faces of a run `a..a+3` are on the dice, its string occurs in the joined distinct faces |
| YatzyEngine.SmallRunRule | assignment1/yatzyEngine.js:24-27 | the string test for a four-face run holds exactly when all four faces are on the dice |
| YatzyEngine.Score | assignment1/yatzyEngine.js:34-51 | every score is at least 0, a five-dice score is at most 50, and an unknown category scores 0 |
| YatzyEngine.IsThreeKind | assignment1/yatzyEngine.js:18 | no contract of its own: the largest count is at least 3; what it tests is stated by `MaxReaches` and `OfAKindRule` |
| YatzyEngine.IsFourKind | assignment1/yatzyEngine.js:19 | no contract of its own: the largest count is at least 4; what it tests is stated by `MaxReaches` and `OfAKindRule` |
| YatzyEngine.IsFullHouse | assignment1/yatzyEngine.js:20-23 | no contract of its own: the count table holds a 3 and a 2; what it tests is stated by `FullHouseRule` |
| YatzyEngine.IsSmallStraight | assignment1/yatzyEngine.js:24-27 | no contract of its own: the joined distinct faces contain "1234", "2345" or "3456"; what it tests is stated by `SmallRunRule` and `SmallStraightRule` |
| YatzyEngine.IsLargeStraight | assignment1/yatzyEngine.js:28-31 | no contract of its own: the joined distinct faces are "12345" or "23456"; what it tests is stated by `LargeStraightIff` |
| YatzyEngine.IsYatzy | assignment1/yatzyEngine.js:32 | no contract of its own: every die equals the first; what it tests is stated by `YatzyByCount` and `YatzyRule` |
| YatzyEngine.OfAKindRule | assignment1/yatzyEngine.js:18-19 | Three (Four) of a Kind pays the dice sum exactly when some face shows at least three (four) times, and 0 otherwise |
| YatzyEngine.FullHouseRule | assignment1/yatzyEngine.js:20-23 | Full House pays 25 exactly when some face shows exactly three times and some face exactly twice, and 0 otherwise |
| YatzyEngine.FullHouseExcludesFourOfAKind | assignment1/yatzyEngine.js:20-23 | a hand with four or five equal faces scores 0 as a Full House |
| YatzyEngine.SmallStraightRule | assignment1/yatzyEngine.js:24-27 | Small Straight pays 30 exactly when 1-2-3-4, 2-3-4-5 or 3-4-5-6 are all on the dice, and 0 otherwise |
| YatzyEngine.FacesFromMembers | assignment1/yatzyEngine.js:29-30 | dice whose distinct faces are exactly `lo..lo+4` show each of those faces and no other |
| YatzyEngine.LargeStraightSound | assignment1/yatzyEngine.js:28-31 | if the joined distinct faces equal "12345" or "23456", the dice show exactly those five faces |
| YatzyEngine.LargeStraightComplete | assignment1/yatzyEngine.js:28-31 | dice showing exactly 1..5 (or 2..6) have exactly those distinct sorted faces |
| YatzyEngine.LargeStraightIff | assignment1/yatzyEngine.js:28-31 | the Large Straight test holds exactly when the faces are exactly 1..5 or exactly 2..6 |
| YatzyEngine.LargeStraightRule | assignment1/yatzyEngine.js:46 | Large Straight pays 40 exactly when the faces are exactly 1..5 or exactly 2..6, and 0 otherwise |
| YatzyEngine.LargeStraightIsSmallStraight | assignment1/yatzyEngine.js:45-46 | any dice that score 40 as a Large Straight score 30 as a Small Straight |
| YatzyEngine.YatzyByCount | assignment1/yatzyEngine.js:32 | "every die equals the first" holds exactly when there are no dice or one face fills them all |
| YatzyEngine.YatzyRule | assignment1/yatzyEngine.js:48 | on five dice Yatzy pays 50 exactly when one face shows on all five, and 0 otherwise |
| YatzyEngine.SameCounts | assignment1/yatzyEngine.js:4-8 | dice with the same multiset have the same count for every face and the same members |
| YatzyEngine.SameCountVector | assignment1/yatzyEngine.js:4-8 | dice with the same multiset have the same count table |
| YatzyEngine.SameSum | assignment1/yatzyEngine.js:3 | dice with the same multiset have the same sum |
| YatzyEngine.SameDistinct | assignment1/yatzyEngine.js:25 | dice with the same multiset have the same distinct sorted faces |
| YatzyEngine.YatzyTransfer | assignment1/yatzyEngine.js:32 | if every die equals the first, the same holds after the dice are rearranged |
| YatzyEngine.SameYatzy | assignment1/yatzyEngine.js:32 | the Yatzy test does not depend on the order of the dice |
| YatzyEngine.ScoreOrderIndependent | assignment1/yatzyEngine.js:34-51 | every category scores a rearrangement of the dice the same |
| YatzyEngine.YatzyExamples | assignment1/yatzyEngine.js:48 | five 5s pay 50 as Yatzy; four 5s and a 4 pay 0 |
| YatzyEngine.FullHouseExample | assignment1/yatzyEngine.js:44 | 2,2,3,3,3 pays 25 as a Full House |
| YatzyEngine.FourPlusOneExample | assignment1/yatzyEngine.js:44 | 2,2,2,2,3 pays 0 as a Full House |
| YatzyEngine.FiveOfAKindExample | assignment1/yatzyEngine.js:44 | 5,5,5,5,5 pays 0 as a Full House |
| YatzyEngine.SmallStraightExample | assignment1/yatzyEngine.js:45 | 1,2,3,4,4 pays 30 as a Small Straight |
| YatzyEngine.LargeStraightExample | assignment1/yatzyEngine.js:46 | 1,2,3,4,5 pays 40 as a Large Straight |
| YatzyEngine.NotLargeStraightExample | assignment1/yatzyEngine.js:46 | 1,2,3,4,4 pays 0 as a Large Straight |
| YatzyEngine.SumAndUpperExamples | assignment1/yatzyEngine.js:38-47 | five 6s pay 30 as Chance; 3,3,1,2,5 pays 6 as Threes |
| DiceSet.Rolled | assignment1/dice.js:9-16 | a roll keeps the number of dice, each die ends with its old face or its draw, and faces stay in 1..6 |
| DiceSet.RolledKeepsHeld | assignment1/dice.js:11-13 | a held die keeps its face and an un-held die takes its draw |
| DiceSet.Toggled | assignment1/dice.js:18-21 | toggling flips exactly the flag at an index inside the mask, and changes nothing for an index outside it |
| DiceSet.ToggleTwice | assignment1/dice.js:18-21 | toggling the same index twice restores the mask |
| DiceSet.Released | assignment1/dice.js:24 | the released mask has `n` flags, all false |
| DiceSet.Dice.constructor | assignment1/dice.js:3-7 | `numDice` dice, each showing 1 and not held |
| DiceSet.Dice.Roll | assignment1/dice.js:9-16 | the new faces are `Rolled` of the old faces, the mask and the draws: held dice keep their faces, the others show faces in 1..6; the values array is returned |
| DiceSet.Dice.ToggleHold | assignment1/dice.js:18-21 | the hold mask becomes `Toggled` of the old mask: an index outside the dice is a no-op |
| DiceSet.Dice.ReleaseAll | assignment1/dice.js:23-25 | a new all-false hold mask of the same length, with the faces unchanged |
| ServerScoring.CountFaces | assignment2/server.js:67-73 | the face table has a key exactly for each face on the dice, mapped to the number of dice showing it |
| ServerScoring.Lookup | assignment2/server.js:90 | no contract of its own: `counts[face] || 0`; `UpperAgrees` states that it is the number of dice showing the face |
| ServerScoring.Values | assignment2/server.js:78 | no contract of its own: the table's values in key order 1..6; `ValuesOfTable`, `ValuesMembers`, `ValuesSum` and `ValuesAreFaces` state what it holds |
| ServerScoring.InsertDesc | assignment2/server.js:78 | inserting into a descending list keeps it descending and adds exactly that element |
| ServerScoring.SortDesc | assignment2/server.js:78 | the sorted counts are in descending order and are a permutation of the input |
| ServerScoring.UpperFace | assignment2/server.js:88-89 | an upper category's face is its 1-based position in the sheet's category list |
| ServerScoring.ComputeScore | assignment2/server.js:75-118 | an unknown category scores 0 |
| ServerScoring.ValuesOfTable | assignment2/server.js:78 | a number is among the table's values exactly when some face key in 1..6 maps to it |
| ServerScoring.ValuesMembers | assignment2/server.js:78 | a number is among the counts exactly when it is the positive count of some face |
| ServerScoring.SumConcat | assignment2/server.js:63-65 | the sum of a concatenation is the sum of the parts |
| ServerScoring.ValuesSum | assignment2/server.js:67-78 | the counts in the face table add up to the number of dice |
| ServerScoring.SumAtLeastOne | assignment2/server.js:63-65 | a list of faces sums to at least one entry plus one for each other entry |
| ServerScoring.SumAtLeastTwo | assignment2/server.js:63-65 | a list of faces sums to at least two entries plus one for each other entry |
| ServerScoring.TopCountReaches | assignment2/server.js:93-95 | the top sorted count reaches `k` exactly when some face shows on at least `k` dice |
| ServerScoring.ValuesAreFaces | assignment2/server.js:78 | on a hand every count in the face table is between 1 and 5 (the upper bound is the number of dice) |
| ServerScoring.ThreeAndTwoOnly | assignment2/server.js:97 | positive counts of at most 6 that sum to five and include a 3 and a 2 are exactly one 3 and one 2 |
| ServerScoring.SortedThreeTwo | assignment2/server.js:97 | a descending list holding one 3 and one 2 is [3, 2] |
| ServerScoring.FullHouseAgrees | assignment2/server.js:96-97 | on a hand the top two sorted counts are 3 and 2 exactly when one face shows three times and another twice |
| ServerScoring.OneDistinctFace | assignment2/server.js:113-114 | on non-empty dice there is one distinct face exactly when every die equals the first |
| ServerScoring.UpperAgrees | assignment2/server.js:90 | the table lookup, defaulting to 0, is the number of dice showing the face |
| ServerScoring.ScorersAgree | assignment2/server.js:75-118 | on every hand of five dice the server's score equals the browser engine's score for every category and for an unknown name |
| ServerGames.Game.constructor | assignment2/server.js:24-57 | a new game shows the faces 1..5, holds nothing, has three rolls and an open sheet, totals 0 and is not finished |
| ServerGames.Game.Hold | assignment2/server.js:153-168 | an index outside 0..4 is refused with the mask unchanged; otherwise that flag flips (`Toggled`) whatever the rolls left or the finished flag; nothing else changes |
| ServerGames.Game.Roll | assignment2/server.js:171-194 | a finished game is refused first, then a turn with no rolls left, with the state unchanged; the roll succeeds exactly when neither applies, and then the dice become `Rolled` of the old dice, the mask and the draws, held dice keep their faces and one roll is used up |
| ServerGames.Game.Score | assignment2/server.js:197-230 | an unknown name is refused, and so is a scored category, so no score is ever overwritten; on success the category gets `computeScore` of the dice, the total grows by those points, one more category is scored, a new turn starts with the faces 1..5 released, and the game is finished exactly when that was the last open category |
| ServerGames.Game.Record | assignment2/server.js:209-223 | the points go into the open category, the total is recomputed from the sheet, a new turn starts, and `finished` holds exactly when no category is left open |
| ServerGames.ScoreBeforeRoll | assignment2/server.js:197-219 | before the first roll of a turn the dice are 1..5, so scoring pays 40 as a Large Straight and 30 as a Small Straight |
| ServerGames.GameStore.constructor | assignment2/server.js:20-21 | an empty table and the counter at 1 |
| ServerGames.GameStore.Create | assignment2/server.js:24-57 | the new game is stored under the counter's value, which no stored game has; the counter advances by one; the game starts in the initial state |
| ServerGames.GameStore.Get | assignment2/server.js:120-127 | the game stored under the id if there is one, not found otherwise |
| ServerGames.GameStore.Delete | assignment2/server.js:233-238 | the id's entry is removed if present, an unknown id is a no-op, and the counter is not rewound |
| ServerGames.GameStore.HoldGame | assignment2/server.js:153-168 | an unknown id is not found; otherwise only that game changes: the hold succeeds exactly when the index is in 0..4, its mask becomes `Toggled` at the index, and its dice, rolls, sheet, total and finished flag stay; the table and the counter are unchanged |
| ServerGames.GameStore.RollGame | assignment2/server.js:171-194 | an unknown id is not found; otherwise only that game changes: the roll succeeds exactly when the game is not finished and has rolls left, and then its dice become `Rolled` of the old dice, its mask and the draws and one roll is used up; a refused roll changes nothing; the table and the counter are unchanged |
| ServerGames.GameStore.ScoreGame | assignment2/server.js:197-230 | an unknown id is not found; otherwise only that game changes: the score succeeds exactly when the name is a category that is still open, and then the points are `computeScore` of the old dice, they fill that category and add to the total, a new turn starts with the faces 1..5 released, and the game is finished exactly when that was the last open category; a refused score changes nothing; the table and the counter are unchanged |
| BrowserGame.YatzyGame.constructor | assignment1/yatzyGame.js:12-25 | round 1, three rolls, total 0, the turn not scored, five new dice showing 1 with none held, and an open sheet |
| BrowserGame.YatzyGame.ShowNeutralFaces | assignment1/yatzyGame.js:91 | the five dice show 1, 2, 3, 4, 5 |
| BrowserGame.YatzyGame.StartNewGame | assignment1/yatzyGame.js:74-96 | round 1, three rolls, total 0, the turn not scored, every row open, holds released in a new mask and the faces 1..5 |
| BrowserGame.YatzyGame.RollDice | assignment1/yatzyGame.js:108-116 | with no roll left nothing changes; otherwise the faces become `Rolled` of the old faces, the mask and the draws, one roll is used up and the turn counts as not scored |
| BrowserGame.YatzyGame.ToggleHold | assignment1/yatzyGame.js:118-126 | before the first roll of a turn the mask is unchanged; otherwise it becomes `Toggled` at the index; the faces never change |
| BrowserGame.YatzyGame.ForceEndTurn | assignment1/yatzyGame.js:130-142 | nothing changes before the first roll or once the turn is scored; otherwise no rolls are left |
| BrowserGame.YatzyGame.HandleCategoryClick | assignment1/yatzyGame.js:145-185 | a filled row is refused, and so is any row before the first roll, with the state unchanged; a click is recorded exactly when neither applies, and then the row gets the engine's score of the dice, the total grows by it, the round advances, three rolls, released holds in a new mask and the faces 1..5 start the next turn, and the game is over exactly when no row is left open |

## Left out

- The page is not modelled. That covers `attachUI`, `renderDice`, `updateButtons`, `setStatus`, the pip drawing, `endGame`'s alert and button disabling, and the DOM rows. The browser session keeps a score sheet over the thirteen categories in place of the rows' "scored" marks. It assumes the page has exactly one row per category.
- HTTP is not modelled. That covers Express, request parsing, status codes, message strings, JSON snapshots and the health route. `assignment2/main.js` is not part of this model.
- `Math.random` / `randomDie` are not modelled: each roll receives its five faces as the `draws` parameter. Nothing is claimed about their distribution.
- Concurrency is not modelled. Each route is one atomic method call.
- JavaScript typing quirks are not modelled: a non-number or fractional hold index, category names that are prototype keys, and faces outside 1..6. The scorers require faces in 1..6. Category names are modelled as `Label`, where `Unrecognised` covers every name that is not one of the thirteen, including the empty name.
- Game ids are natural numbers rather than their decimal strings.
- DiceSet.Dice.constructor: takes the number of dice explicitly. The JavaScript default of 6 is not modelled, because the game always asks for 5.
- The server's `sum` helper is the same left-to-right sum as the engine's, so `YatzyEngine.Sum` models both.
- ServerScoring.ComputeScore: its own contract states only the unknown-name case. What it pays per category is stated through `ScorersAgree`, which covers hands of five dice. With no dice at all the two Yatzy tests differ: the engine's `every` holds on an empty list and the server's one-distinct-face test does not. Neither game ever scores an empty hand.
