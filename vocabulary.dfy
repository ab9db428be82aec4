/** Shared vocabulary of the Yatzy game: die faces, the thirteen scoring
    categories, and the category labels the scorers accept. */
module Vocabulary {

  datatype Option<+T> = None | Some(value: T)

  /** The closed set of scoring categories, in score-sheet order. */
  datatype Category =
    | Ones | Twos | Threes | Fours | Fives | Sixes
    | ThreeOfAKind | FourOfAKind | FullHouse
    | SmallStraight | LargeStraight | Chance | Yatzy

  /** What a scorer is handed: one of the thirteen categories, or a name that
      matches none of them (both scorers answer 0 for the latter). */
  datatype Label = Known(cat: Category) | Unrecognised

  /** The categories in the order the score sheet lists them. */
  const AllCategories: seq<Category> :=
    [Ones, Twos, Threes, Fours, Fives, Sixes,
     ThreeOfAKind, FourOfAKind, FullHouse,
     SmallStraight, LargeStraight, Chance, Yatzy]

  predicate NoDuplicates<T(==)>(s: seq<T>) {
    forall i, j :: 0 <= i < j < |s| ==> s[i] != s[j]
  }

  /** Every category appears in AllCategories, and exactly once. */
  lemma AllCategoriesListed()
    ensures forall c: Category :: c in AllCategories
    ensures NoDuplicates(AllCategories)
  {
    forall c: Category ensures c in AllCategories {
      match c
      case Ones => assert AllCategories[0] == c;
      case Twos => assert AllCategories[1] == c;
      case Threes => assert AllCategories[2] == c;
      case Fours => assert AllCategories[3] == c;
      case Fives => assert AllCategories[4] == c;
      case Sixes => assert AllCategories[5] == c;
      case ThreeOfAKind => assert AllCategories[6] == c;
      case FourOfAKind => assert AllCategories[7] == c;
      case FullHouse => assert AllCategories[8] == c;
      case SmallStraight => assert AllCategories[9] == c;
      case LargeStraight => assert AllCategories[10] == c;
      case Chance => assert AllCategories[11] == c;
      case Yatzy => assert AllCategories[12] == c;
    }
  }

  /** A die shows one of the faces 1..6. */
  predicate IsFace(v: int) {
    1 <= v <= 6
  }

  predicate AllFaces(d: seq<int>) {
    forall i :: 0 <= i < |d| ==> IsFace(d[i])
  }

  /** A hand: the five dice of a turn. */
  predicate IsHand(d: seq<int>) {
    |d| == 5 && AllFaces(d)
  }

  /** The neutral faces shown between turns: 1, 2, 3, 4, 5. */
  const NeutralFaces: seq<int> := [1, 2, 3, 4, 5]
}
