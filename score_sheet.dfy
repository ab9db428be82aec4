/** The score sheet both game versions keep: every category maps to the points
    recorded for it, or to None while it is still open. */
module ScoreSheet {
  import opened Vocabulary

  type Sheet = map<Category, Option<int>>

  /** The sheet has an entry (possibly None) for every category. */
  predicate Covers(s: Sheet) {
    forall c: Category :: c in s
  }

  /** The sheet of a new game: every category open. */
  function EmptySheet(): (s: Sheet)
    ensures Covers(s)
    ensures forall c :: c in s ==> s[c] == None
  {
    AllCategoriesListed();
    map c | c in AllCategories :: None
  }

  /** The points an entry contributes to the total: nothing while open. */
  function Points(v: Option<int>): int {
    if v.Some? then v.value else 0
  }

  /** Sum of the recorded points of the categories `cats`, added left to right. */
  function TotalOf(cats: seq<Category>, s: Sheet): int
    requires Covers(s)
  {
    if cats == [] then 0
    else TotalOf(cats[..|cats| - 1], s) + Points(s[cats[|cats| - 1]])
  }

  /** How many of the categories `cats` are scored. */
  function ScoredOf(cats: seq<Category>, s: Sheet): (n: nat)
    requires Covers(s)
    ensures n <= |cats|
  {
    if cats == [] then 0
    else ScoredOf(cats[..|cats| - 1], s) + (if s[cats[|cats| - 1]].Some? then 1 else 0)
  }

  /** The sheet's total: the sum of every recorded score. */
  function Total(s: Sheet): int
    requires Covers(s)
  {
    TotalOf(AllCategories, s)
  }

  /** The number of categories scored so far. */
  function Scored(s: Sheet): nat
    requires Covers(s)
  {
    ScoredOf(AllCategories, s)
  }

  /** No entry of the sheet is open. */
  predicate AllScored(s: Sheet) {
    forall c :: c in s ==> s[c].Some?
  }

  lemma {:induction false} TotalOfRecord(cats: seq<Category>, s: Sheet, c: Category, p: int)
    requires Covers(s) && s[c] == None && NoDuplicates(cats)
    ensures Covers(s[c := Some(p)])
    ensures TotalOf(cats, s[c := Some(p)]) == TotalOf(cats, s) + (if c in cats then p else 0)
  {
    if cats != [] {
      var init := cats[..|cats| - 1];
      assert NoDuplicates(init);
      TotalOfRecord(init, s, c, p);
      assert c in cats <==> c in init || c == cats[|cats| - 1];
      assert c == cats[|cats| - 1] ==> c !in init;
    }
  }

  lemma {:induction false} ScoredOfRecord(cats: seq<Category>, s: Sheet, c: Category, p: int)
    requires Covers(s) && s[c] == None && NoDuplicates(cats)
    ensures Covers(s[c := Some(p)])
    ensures ScoredOf(cats, s[c := Some(p)]) == ScoredOf(cats, s) + (if c in cats then 1 else 0)
  {
    if cats != [] {
      var init := cats[..|cats| - 1];
      assert NoDuplicates(init);
      ScoredOfRecord(init, s, c, p);
      assert c in cats <==> c in init || c == cats[|cats| - 1];
      assert c == cats[|cats| - 1] ==> c !in init;
    }
  }

  lemma {:induction false} ScoredOfFull(cats: seq<Category>, s: Sheet)
    requires Covers(s)
    ensures ScoredOf(cats, s) == |cats| <==> forall c :: c in cats ==> s[c].Some?
  {
    if cats != [] {
      var init := cats[..|cats| - 1];
      ScoredOfFull(init, s);
      assert forall c :: c in cats <==> c in init || c == cats[|cats| - 1];
    }
  }

  lemma {:induction false} EmptyOf(cats: seq<Category>)
    ensures TotalOf(cats, EmptySheet()) == 0 && ScoredOf(cats, EmptySheet()) == 0
  {
    if cats != [] {
      EmptyOf(cats[..|cats| - 1]);
    }
  }

  /** A new sheet totals 0 and has nothing scored. */
  lemma EmptySheetTotals()
    ensures Total(EmptySheet()) == 0 && Scored(EmptySheet()) == 0
    ensures !AllScored(EmptySheet())
  {
    EmptyOf(AllCategories);
    assert EmptySheet()[Ones] == None;
  }

  /** The sheet is full exactly when all thirteen categories are scored. */
  lemma AllScoredIff(s: Sheet)
    requires Covers(s)
    ensures AllScored(s) <==> Scored(s) == |AllCategories|
  {
    AllCategoriesListed();
    ScoredOfFull(AllCategories, s);
  }

  /** Recording `p` points in an open category adds exactly `p` to the total
      and one to the number of scored categories, changes no other entry, and
      fills the sheet exactly when that category was the last open one. */
  lemma RecordScore(s: Sheet, c: Category, p: int)
    requires Covers(s) && s[c] == None
    ensures Covers(s[c := Some(p)])
    ensures Total(s[c := Some(p)]) == Total(s) + p
    ensures Scored(s[c := Some(p)]) == Scored(s) + 1
    ensures AllScored(s[c := Some(p)]) <==> Scored(s) + 1 == |AllCategories|
    ensures !AllScored(s)
  {
    AllCategoriesListed();
    TotalOfRecord(AllCategories, s, c, p);
    ScoredOfRecord(AllCategories, s, c, p);
    AllScoredIff(s[c := Some(p)]);
  }
}
