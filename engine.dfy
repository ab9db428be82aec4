/** The browser version's scoring table (YatzyEngine in assignment1): a pure
    map from a category and the dice faces to points. Every scorer is stated
    over any number of dice with faces 1..6; the lemmas then say what each
    category pays in terms of face counts and membership, that no score
    depends on the order of the dice, and that a five-dice score lies in
    [0, 50]. */
module YatzyEngine {
  import opened Vocabulary

  /** `sum`: the faces added left to right, starting from 0. */
  function Sum(d: seq<int>): (r: int)
    ensures AllFaces(d) ==> |d| <= r <= 6 * |d|
  {
    if d == [] then 0 else Sum(d[..|d| - 1]) + d[|d| - 1]
  }

  /** The number of dice showing `f`: the length of `d.filter(v => v === f)`. */
  function Count(d: seq<int>, f: int): (n: nat)
    ensures n <= |d|
    ensures n > 0 <==> f in d
  {
    if d == [] then 0
    else
      assert d == d[..|d| - 1] + [d[|d| - 1]];
      Count(d[..|d| - 1], f) + (if d[|d| - 1] == f then 1 else 0)
  }

  /** `ones` .. `sixes`: the dice showing `face`, times `face`. */
  function Upper(d: seq<int>, face: int): int {
    Count(d, face) * face
  }

  /** `counts`: the face-count table filled by one pass over the dice, entry
      `f - 1` holding the count of face `f`. */
  function Counts(d: seq<int>): (c: seq<nat>)
    requires AllFaces(d)
    ensures |c| == 6
    ensures forall f :: 1 <= f <= 6 ==> c[f - 1] == Count(d, f)
  {
    if d == [] then [0, 0, 0, 0, 0, 0]
    else
      var c := Counts(d[..|d| - 1]);
      var v := d[|d| - 1];
      c[v - 1 := c[v - 1] + 1]
  }

  /** `Math.max(...)` over a non-empty list of counts. */
  function MaxOf(s: seq<nat>): (m: nat)
    requires |s| > 0
    ensures m in s
    ensures forall i :: 0 <= i < |s| ==> s[i] <= m
  {
    if |s| == 1 then s[0]
    else
      var m := MaxOf(s[..|s| - 1]);
      if s[|s| - 1] > m then s[|s| - 1] else m
  }

  predicate IsThreeKind(d: seq<int>)
    requires AllFaces(d)
  {
    MaxOf(Counts(d)) >= 3
  }

  predicate IsFourKind(d: seq<int>)
    requires AllFaces(d)
  {
    MaxOf(Counts(d)) >= 4
  }

  /** The count table includes a 3 and includes a 2. */
  predicate IsFullHouse(d: seq<int>)
    requires AllFaces(d)
  {
    3 in Counts(d) && 2 in Counts(d)
  }

  function Keep(d: seq<int>, f: int): seq<int> {
    if f in d then [f] else []
  }

  /** `[...new Set(d)].sort()`: the distinct faces, ascending. (The default
      sort compares the faces as strings, which orders the digits 1..6 the
      same way as numbers.) */
  function DistinctSorted(d: seq<int>): (r: seq<int>)
    requires AllFaces(d)
    ensures AllFaces(r)
  {
    Keep(d, 1) + Keep(d, 2) + Keep(d, 3) + Keep(d, 4) + Keep(d, 5) + Keep(d, 6)
  }

  /** DistinctSorted is what `[...new Set(d)].sort()` promises: every face on
      the dice and nothing else ... */
  lemma DistinctSortedMembers(d: seq<int>)
    requires AllFaces(d)
    ensures forall x :: x in DistinctSorted(d) <==> x in d
  {
  }

  predicate Ascending(r: seq<int>) {
    forall i, j :: 0 <= i < j < |r| ==> r[i] < r[j]
  }

  predicate AtMost(r: seq<int>, k: int) {
    forall i :: 0 <= i < |r| ==> r[i] <= k
  }

  lemma AppendKeep(a: seq<int>, d: seq<int>, k: int)
    requires Ascending(a) && AtMost(a, k - 1)
    ensures Ascending(a + Keep(d, k)) && AtMost(a + Keep(d, k), k)
  {
  }

  /** ... each once, in strictly ascending order. */
  lemma DistinctSortedAscending(d: seq<int>)
    requires AllFaces(d)
    ensures Ascending(DistinctSorted(d))
  {
    AppendKeep([], d, 1);
    AppendKeep(Keep(d, 1), d, 2);
    AppendKeep(Keep(d, 1) + Keep(d, 2), d, 3);
    AppendKeep(Keep(d, 1) + Keep(d, 2) + Keep(d, 3), d, 4);
    AppendKeep(Keep(d, 1) + Keep(d, 2) + Keep(d, 3) + Keep(d, 4), d, 5);
    AppendKeep(Keep(d, 1) + Keep(d, 2) + Keep(d, 3) + Keep(d, 4) + Keep(d, 5), d, 6);
    assert [] + Keep(d, 1) == Keep(d, 1);
  }

  function DigitChar(v: int): char
    requires 0 <= v <= 9
  {
    (48 + v) as char
  }

  /** `.join('')` of a list of one-digit numbers. */
  function Join(s: seq<int>): (t: string)
    requires AllFaces(s)
    ensures |t| == |s|
  {
    seq(|s|, i requires 0 <= i < |s| => DigitChar(s[i]))
  }

  predicate OccursAt(t: string, p: string, i: int)
    requires 0 <= i <= |t| - |p|
  {
    t[i..i + |p|] == p
  }

  /** `t.includes(p)`: `p` occurs in `t` as a contiguous piece. */
  predicate Includes(t: string, p: string) {
    exists i :: 0 <= i <= |t| - |p| && OccursAt(t, p, i)
  }

  predicate IsSmallStraight(d: seq<int>)
    requires AllFaces(d)
  {
    var s := Join(DistinctSorted(d));
    Includes(s, "1234") || Includes(s, "2345") || Includes(s, "3456")
  }

  predicate IsLargeStraight(d: seq<int>)
    requires AllFaces(d)
  {
    var s := Join(DistinctSorted(d));
    s == "12345" || s == "23456"
  }

  /** `d.every(v => v === d[0])`. */
  predicate IsYatzy(d: seq<int>) {
    forall i :: 0 <= i < |d| ==> d[i] == d[0]
  }

  /** `score(category, dice)`: the points the dice earn in a category; a tag
      that names no category earns 0. */
  function Score(tag: Label, d: seq<int>): (r: int)
    requires AllFaces(d)
    ensures 0 <= r
    ensures IsHand(d) ==> r <= 50
    ensures tag == Unrecognised ==> r == 0
  {
    match tag
    case Unrecognised => 0
    case Known(c) =>
      match c
      case Ones => Upper(d, 1)
      case Twos => Upper(d, 2)
      case Threes => Upper(d, 3)
      case Fours => Upper(d, 4)
      case Fives => Upper(d, 5)
      case Sixes => Upper(d, 6)
      case ThreeOfAKind => if IsThreeKind(d) then Sum(d) else 0
      case FourOfAKind => if IsFourKind(d) then Sum(d) else 0
      case FullHouse => if IsFullHouse(d) then 25 else 0
      case SmallStraight => if IsSmallStraight(d) then 30 else 0
      case LargeStraight => if IsLargeStraight(d) then 40 else 0
      case Chance => Sum(d)
      case Yatzy => if IsYatzy(d) then 50 else 0
  }

  // ----- Counting -----------------------------------------------------------

  /** Count(d, f) is the multiplicity of `f` among the dice, so it does not
      depend on their order. */
  lemma {:induction false} CountIsMultiplicity(d: seq<int>, f: int)
    ensures Count(d, f) == multiset(d)[f]
  {
    if d != [] {
      var init := d[..|d| - 1];
      CountIsMultiplicity(init, f);
      assert d == init + [d[|d| - 1]];
    }
  }

  /** On dice with faces 1..6 the six face counts add up to the number of dice
      (five for a hand). */
  lemma {:induction false} CountsSumToLength(d: seq<int>)
    requires AllFaces(d)
    ensures Count(d, 1) + Count(d, 2) + Count(d, 3) + Count(d, 4) + Count(d, 5) + Count(d, 6) == |d|
  {
    if d != [] {
      CountsSumToLength(d[..|d| - 1]);
    }
  }

  /** Two different faces together fill at most all the dice. */
  lemma {:induction false} CountPairBound(d: seq<int>, f: int, g: int)
    requires f != g
    ensures Count(d, f) + Count(d, g) <= |d|
  {
    if d != [] {
      CountPairBound(d[..|d| - 1], f, g);
    }
  }

  /** A face fills every die exactly when every die shows it. */
  lemma {:induction false} CountAll(d: seq<int>, f: int)
    ensures Count(d, f) == |d| <==> forall i :: 0 <= i < |d| ==> d[i] == f
  {
    if d != [] {
      var init := d[..|d| - 1];
      CountAll(init, f);
      if Count(d, f) == |d| {
        assert Count(init, f) == |init|;
      }
    }
  }

  /** The dice sum is the face-weighted sum of the counts. */
  lemma {:induction false} SumByFaces(d: seq<int>)
    requires AllFaces(d)
    ensures Sum(d) == Count(d, 1) + 2 * Count(d, 2) + 3 * Count(d, 3)
                      + 4 * Count(d, 4) + 5 * Count(d, 5) + 6 * Count(d, 6)
  {
    if d != [] {
      SumByFaces(d[..|d| - 1]);
    }
  }

  // ----- Strings of distinct faces -----------------------------------------

  lemma JoinSlice(r: seq<int>, i: int, j: int)
    requires AllFaces(r) && 0 <= i <= j <= |r|
    ensures Join(r)[i..j] == Join(r[i..j])
  {
    assert forall k :: 0 <= k < j - i ==> Join(r)[i..j][k] == Join(r[i..j])[k];
  }

  lemma JoinInjective(a: seq<int>, b: seq<int>)
    requires AllFaces(a) && AllFaces(b) && Join(a) == Join(b)
    ensures a == b
  {
    forall k | 0 <= k < |a|
      ensures a[k] == b[k]
    {
      assert Join(a)[k] == Join(b)[k];
    }
  }

  /** The runs of the straights, joined. */
  lemma JoinedRuns()
    ensures Join([1, 2, 3, 4]) == "1234" && Join([2, 3, 4, 5]) == "2345"
    ensures Join([3, 4, 5, 6]) == "3456"
    ensures Join([1, 2, 3, 4, 5]) == "12345" && Join([2, 3, 4, 5, 6]) == "23456"
  {
  }

  /** The server's spelling of a straight: every face of `run` is on a die. */
  predicate HasAll(d: seq<int>, run: seq<int>) {
    forall x :: x in run ==> x in d
  }

  /** The faces on the dice are exactly lo..hi. */
  ghost predicate FacesExactly(d: seq<int>, lo: int, hi: int) {
    forall x :: x in d <==> lo <= x <= hi
  }

  /** A four-face run found in the joined string is made of faces on the dice. */
  lemma IncludesRunSound(d: seq<int>, run: seq<int>)
    requires AllFaces(d) && AllFaces(run) && |run| == 4
    requires Includes(Join(DistinctSorted(d)), Join(run))
    ensures HasAll(d, run)
  {
    var r := DistinctSorted(d);
    var s := Join(r);
    var i :| 0 <= i <= |s| - 4 && OccursAt(s, Join(run), i);
    JoinSlice(r, i, i + 4);
    JoinInjective(r[i..i + 4], run);
    DistinctSortedMembers(d);
    forall x | x in run ensures x in d {
      assert x in r[i..i + 4];
    }
  }

  /** Four consecutive faces on the dice show up consecutively in the joined
      string of distinct faces. */
  lemma IncludesRunComplete(d: seq<int>, a: int)
    requires AllFaces(d) && 1 <= a <= 3
    requires a in d && a + 1 in d && a + 2 in d && a + 3 in d
    ensures Includes(Join(DistinctSorted(d)), Join([a, a + 1, a + 2, a + 3]))
  {
    var run := [a, a + 1, a + 2, a + 3];
    var pre, post := RunSplit(d, a);
    IncludesMiddle(pre, run, post);
  }

  /** With faces a..a+3 on the dice, the distinct faces are those four with
      the smaller faces before them and the larger ones after. */
  lemma RunSplit(d: seq<int>, a: int) returns (pre: seq<int>, post: seq<int>)
    requires AllFaces(d) && 1 <= a <= 3
    requires a in d && a + 1 in d && a + 2 in d && a + 3 in d
    ensures AllFaces(pre) && AllFaces(post)
    ensures DistinctSorted(d) == pre + [a, a + 1, a + 2, a + 3] + post
  {
    var k1, k2, k3, k4, k5, k6 := Keep(d, 1), Keep(d, 2), Keep(d, 3), Keep(d, 4), Keep(d, 5), Keep(d, 6);
    assert DistinctSorted(d) == k1 + k2 + k3 + k4 + k5 + k6;
    if a == 1 {
      pre, post := [], k5 + k6;
      assert k1 + k2 + k3 + k4 == [1, 2, 3, 4];
    } else if a == 2 {
      pre, post := k1, k6;
      assert k2 + k3 + k4 + k5 == [2, 3, 4, 5];
      assert k1 + k2 + k3 + k4 + k5 == k1 + (k2 + k3 + k4 + k5);
    } else {
      pre, post := k1 + k2, [];
      assert k3 + k4 + k5 + k6 == [3, 4, 5, 6];
      assert k1 + k2 + k3 + k4 + k5 + k6 == (k1 + k2) + (k3 + k4 + k5 + k6);
    }
  }

  /** A run of faces shows up in the joined string of any list it sits in. */
  lemma IncludesMiddle(pre: seq<int>, run: seq<int>, post: seq<int>)
    requires AllFaces(pre) && AllFaces(run) && AllFaces(post)
    ensures Includes(Join(pre + run + post), Join(run))
  {
    var r := pre + run + post;
    var i := |pre|;
    assert r[i..i + |run|] == run;
    JoinSlice(r, i, i + |run|);
    assert OccursAt(Join(r), Join(run), i);
  }

  // ----- What each category pays -------------------------------------------

  lemma MaxReaches(d: seq<int>, k: int)
    requires AllFaces(d)
    ensures MaxOf(Counts(d)) >= k <==> exists f :: IsFace(f) && Count(d, f) >= k
  {
    var c := Counts(d);
    var m := MaxOf(c);
    if m >= k {
      var i :| 0 <= i < 6 && c[i] == m;
      assert IsFace(i + 1) && Count(d, i + 1) >= k;
    }
    if exists f :: IsFace(f) && Count(d, f) >= k {
      var f :| IsFace(f) && Count(d, f) >= k;
      assert c[f - 1] <= m;
    }
  }

  /** Three and Four of a Kind pay the dice sum when some face shows on at
      least three (four) dice, and nothing otherwise. */
  lemma OfAKindRule(d: seq<int>)
    requires AllFaces(d)
    ensures Score(Known(ThreeOfAKind), d)
            == if exists f :: IsFace(f) && Count(d, f) >= 3 then Sum(d) else 0
    ensures Score(Known(FourOfAKind), d)
            == if exists f :: IsFace(f) && Count(d, f) >= 4 then Sum(d) else 0
  {
    MaxReaches(d, 3);
    MaxReaches(d, 4);
  }

  /** Full House pays 25 exactly when one face shows exactly three times and
      some face exactly twice. */
  lemma FullHouseRule(d: seq<int>)
    requires AllFaces(d)
    ensures Score(Known(FullHouse), d)
            == if exists f, g :: IsFace(f) && IsFace(g) && Count(d, f) == 3 && Count(d, g) == 2
               then 25 else 0
  {
    var c := Counts(d);
    if 3 in c && 2 in c {
      var i :| 0 <= i < 6 && c[i] == 3;
      var j :| 0 <= j < 6 && c[j] == 2;
      assert IsFace(i + 1) && IsFace(j + 1) && Count(d, i + 1) == 3 && Count(d, j + 1) == 2;
    }
    if exists f, g :: IsFace(f) && IsFace(g) && Count(d, f) == 3 && Count(d, g) == 2 {
      var f, g :| IsFace(f) && IsFace(g) && Count(d, f) == 3 && Count(d, g) == 2;
      assert c[f - 1] == 3 && c[g - 1] == 2;
    }
  }

  /** A hand with four or five equal faces is not a Full House. */
  lemma FullHouseExcludesFourOfAKind(d: seq<int>, h: int)
    requires IsHand(d) && Count(d, h) >= 4
    ensures Score(Known(FullHouse), d) == 0
  {
    FullHouseRule(d);
    if exists f, g :: IsFace(f) && IsFace(g) && Count(d, f) == 3 && Count(d, g) == 2 {
      var f, g :| IsFace(f) && IsFace(g) && Count(d, f) == 3 && Count(d, g) == 2;
      CountPairBound(d, h, f);
      assert false;
    }
  }

  /** A run of four faces is in the joined string of distinct faces exactly
      when all four faces are on the dice. */
  lemma SmallRunRule(d: seq<int>, a: int)
    requires AllFaces(d) && 1 <= a <= 3
    ensures Includes(Join(DistinctSorted(d)), Join([a, a + 1, a + 2, a + 3]))
            <==> HasAll(d, [a, a + 1, a + 2, a + 3])
  {
    var run := [a, a + 1, a + 2, a + 3];
    if Includes(Join(DistinctSorted(d)), Join(run)) {
      IncludesRunSound(d, run);
    }
    if HasAll(d, run) {
      assert run[0] in run && run[1] in run && run[2] in run && run[3] in run;
      IncludesRunComplete(d, a);
    }
  }

  /** Small Straight pays 30 exactly when 1-2-3-4, 2-3-4-5 or 3-4-5-6 are all
      among the faces. */
  lemma SmallStraightRule(d: seq<int>)
    requires AllFaces(d)
    ensures Score(Known(SmallStraight), d)
            == if HasAll(d, [1, 2, 3, 4]) || HasAll(d, [2, 3, 4, 5]) || HasAll(d, [3, 4, 5, 6])
               then 30 else 0
  {
    JoinedRuns();
    SmallRunRule(d, 1);
    SmallRunRule(d, 2);
    SmallRunRule(d, 3);
  }

  lemma FacesFromMembers(d: seq<int>, r: seq<int>, lo: int)
    requires forall x :: x in r <==> x in d
    requires r == [lo, lo + 1, lo + 2, lo + 3, lo + 4]
    ensures FacesExactly(d, lo, lo + 4)
  {
    forall x ensures x in d <==> lo <= x <= lo + 4 {
      assert x in d <==> x in r;
    }
  }

  lemma LargeStraightSound(d: seq<int>, lo: int)
    requires AllFaces(d) && (lo == 1 || lo == 2)
    requires Join(DistinctSorted(d)) == Join([lo, lo + 1, lo + 2, lo + 3, lo + 4])
    ensures FacesExactly(d, lo, lo + 4)
  {
    var r := DistinctSorted(d);
    JoinInjective(r, [lo, lo + 1, lo + 2, lo + 3, lo + 4]);
    DistinctSortedMembers(d);
    FacesFromMembers(d, r, lo);
  }

  lemma LargeStraightComplete(d: seq<int>)
    requires AllFaces(d)
    ensures FacesExactly(d, 1, 5) ==> DistinctSorted(d) == [1, 2, 3, 4, 5]
    ensures FacesExactly(d, 2, 6) ==> DistinctSorted(d) == [2, 3, 4, 5, 6]
  {
    if FacesExactly(d, 1, 5) {
      assert 1 in d && 2 in d && 3 in d && 4 in d && 5 in d && 6 !in d;
      assert Keep(d, 1) == [1] && Keep(d, 2) == [2] && Keep(d, 3) == [3];
      assert Keep(d, 4) == [4] && Keep(d, 5) == [5] && Keep(d, 6) == [];
    }
    if FacesExactly(d, 2, 6) {
      assert 1 !in d && 2 in d && 3 in d && 4 in d && 5 in d && 6 in d;
      assert Keep(d, 1) == [] && Keep(d, 2) == [2] && Keep(d, 3) == [3];
      assert Keep(d, 4) == [4] && Keep(d, 5) == [5] && Keep(d, 6) == [6];
    }
  }

  lemma LargeStraightIff(d: seq<int>)
    requires AllFaces(d)
    ensures IsLargeStraight(d) <==> FacesExactly(d, 1, 5) || FacesExactly(d, 2, 6)
  {
    JoinedRuns();
    if Join(DistinctSorted(d)) == "12345" {
      LargeStraightSound(d, 1);
    }
    if Join(DistinctSorted(d)) == "23456" {
      LargeStraightSound(d, 2);
    }
    LargeStraightComplete(d);
  }

  /** Large Straight pays 40 exactly when the faces are exactly 1..5 or
      exactly 2..6. */
  lemma LargeStraightRule(d: seq<int>)
    requires AllFaces(d)
    ensures Score(Known(LargeStraight), d)
            == if FacesExactly(d, 1, 5) || FacesExactly(d, 2, 6) then 40 else 0
  {
    LargeStraightIff(d);
  }

  /** Every dice set that scores as a Large Straight also scores as a Small
      Straight. */
  lemma LargeStraightIsSmallStraight(d: seq<int>)
    requires AllFaces(d) && Score(Known(LargeStraight), d) == 40
    ensures Score(Known(SmallStraight), d) == 30
  {
    LargeStraightRule(d);
    SmallStraightRule(d);
    if FacesExactly(d, 1, 5) {
      assert HasAll(d, [1, 2, 3, 4]);
    } else {
      assert HasAll(d, [2, 3, 4, 5]);
    }
  }

  /** `every(v => v === d[0])` holds exactly when there are no dice or one
      face fills them all. */
  lemma YatzyByCount(d: seq<int>)
    ensures IsYatzy(d) <==> d == [] || exists f :: Count(d, f) == |d|
  {
    if d != [] {
      CountAll(d, d[0]);
      if exists f :: Count(d, f) == |d| {
        var f :| Count(d, f) == |d|;
        CountAll(d, f);
      }
    }
  }

  /** Yatzy pays 50 exactly when all five dice show the same face. */
  lemma YatzyRule(d: seq<int>)
    requires IsHand(d)
    ensures Score(Known(Yatzy), d) == if exists f :: IsFace(f) && Count(d, f) == 5 then 50 else 0
  {
    YatzyByCount(d);
    if exists f :: Count(d, f) == 5 {
      var f :| Count(d, f) == 5;
      assert Count(d, f) > 0;
      assert IsFace(f);
    }
  }

  lemma SameCounts(d: seq<int>, e: seq<int>)
    requires multiset(d) == multiset(e)
    ensures forall f :: Count(d, f) == Count(e, f)
    ensures forall x :: x in d <==> x in e
  {
    forall f ensures Count(d, f) == Count(e, f) {
      CountIsMultiplicity(d, f);
      CountIsMultiplicity(e, f);
    }
    forall x ensures x in d <==> x in e {
      assert x in d <==> x in multiset(d);
      assert x in e <==> x in multiset(e);
    }
  }

  lemma SameCountVector(d: seq<int>, e: seq<int>)
    requires AllFaces(d) && AllFaces(e) && multiset(d) == multiset(e)
    ensures Counts(d) == Counts(e)
  {
    SameCounts(d, e);
    forall i | 0 <= i < 6 ensures Counts(d)[i] == Counts(e)[i] {
      assert Counts(d)[i] == Count(d, i + 1);
      assert Counts(e)[i] == Count(e, i + 1);
    }
  }

  lemma SameSum(d: seq<int>, e: seq<int>)
    requires AllFaces(d) && AllFaces(e) && multiset(d) == multiset(e)
    ensures Sum(d) == Sum(e)
  {
    SameCounts(d, e);
    SumByFaces(d);
    SumByFaces(e);
  }

  lemma SameDistinct(d: seq<int>, e: seq<int>)
    requires AllFaces(d) && AllFaces(e) && multiset(d) == multiset(e)
    ensures DistinctSorted(d) == DistinctSorted(e)
  {
    SameCounts(d, e);
    assert forall f :: Keep(d, f) == Keep(e, f);
  }

  lemma YatzyTransfer(d: seq<int>, e: seq<int>)
    requires multiset(d) == multiset(e) && IsYatzy(d)
    ensures IsYatzy(e)
  {
    if e != [] {
      assert |d| == |multiset(d)| == |e|;
      CountAll(d, d[0]);
      CountIsMultiplicity(d, d[0]);
      CountIsMultiplicity(e, d[0]);
      CountAll(e, d[0]);
    }
  }

  lemma SameYatzy(d: seq<int>, e: seq<int>)
    requires multiset(d) == multiset(e)
    ensures IsYatzy(d) <==> IsYatzy(e)
  {
    if IsYatzy(d) {
      YatzyTransfer(d, e);
    }
    if IsYatzy(e) {
      YatzyTransfer(e, d);
    }
  }

  /** No score depends on the order of the dice. */
  lemma ScoreOrderIndependent(tag: Label, d: seq<int>, e: seq<int>)
    requires AllFaces(d) && AllFaces(e) && multiset(d) == multiset(e)
    ensures Score(tag, d) == Score(tag, e)
  {
    match tag
    case Unrecognised =>
    case Known(c) =>
      match c
      case Ones => SameCounts(d, e);
      case Twos => SameCounts(d, e);
      case Threes => SameCounts(d, e);
      case Fours => SameCounts(d, e);
      case Fives => SameCounts(d, e);
      case Sixes => SameCounts(d, e);
      case ThreeOfAKind => SameCountVector(d, e); SameSum(d, e);
      case FourOfAKind => SameCountVector(d, e); SameSum(d, e);
      case FullHouse => SameCountVector(d, e);
      case SmallStraight => SameDistinct(d, e);
      case LargeStraight => SameDistinct(d, e);
      case Chance => SameSum(d, e);
      case Yatzy => SameYatzy(d, e);
  }

  /** The worked examples of the scoring table. */
  lemma YatzyExamples()
    ensures Score(Known(Yatzy), [5, 5, 5, 5, 5]) == 50
    ensures Score(Known(Yatzy), [5, 5, 5, 5, 4]) == 0
  {
    assert [5, 5, 5, 5, 4][4] != [5, 5, 5, 5, 4][0];
  }

  lemma FullHouseExample()
    ensures Score(Known(FullHouse), [2, 2, 3, 3, 3]) == 25
  {
    CountIsMultiplicity([2, 2, 3, 3, 3], 3);
    CountIsMultiplicity([2, 2, 3, 3, 3], 2);
    FullHouseRule([2, 2, 3, 3, 3]);
  }

  lemma FourPlusOneExample()
    ensures Score(Known(FullHouse), [2, 2, 2, 2, 3]) == 0
  {
    CountIsMultiplicity([2, 2, 2, 2, 3], 2);
    FullHouseExcludesFourOfAKind([2, 2, 2, 2, 3], 2);
  }

  lemma FiveOfAKindExample()
    ensures Score(Known(FullHouse), [5, 5, 5, 5, 5]) == 0
  {
    CountIsMultiplicity([5, 5, 5, 5, 5], 5);
    FullHouseExcludesFourOfAKind([5, 5, 5, 5, 5], 5);
  }

  lemma SmallStraightExample()
    ensures Score(Known(SmallStraight), [1, 2, 3, 4, 4]) == 30
  {
    SmallStraightRule([1, 2, 3, 4, 4]);
    assert HasAll([1, 2, 3, 4, 4], [1, 2, 3, 4]);
  }

  lemma LargeStraightExample()
    ensures Score(Known(LargeStraight), [1, 2, 3, 4, 5]) == 40
  {
  }

  lemma NotLargeStraightExample()
    ensures Score(Known(LargeStraight), [1, 2, 3, 4, 4]) == 0
  {
  }

  lemma SumAndUpperExamples()
    ensures Score(Known(Chance), [6, 6, 6, 6, 6]) == 30
    ensures Score(Known(Threes), [3, 3, 1, 2, 5]) == 6
  {
    CountIsMultiplicity([3, 3, 1, 2, 5], 3);
    assert [6, 6][..1] == [6] && [6, 6, 6][..2] == [6, 6];
    assert [6, 6, 6, 6][..3] == [6, 6, 6] && [6, 6, 6, 6, 6][..4] == [6, 6, 6, 6];
  }
}
