/** The server version's scorer (`countFaces` and `computeScore` in
    assignment2/server.js). It reaches its answers by other routes than the
    browser's YatzyEngine (a face table with only the faces present, the
    counts sorted in descending order, the number of distinct faces, set
    membership for the small straight), and ScorersAgree proves that on every
    hand the two give the same points for every tag. The server's `sum` is the
    same left fold as the browser's and is YatzyEngine.Sum. */
module ServerScoring {
  import opened Vocabulary
  import opened YatzyEngine

  /** `countFaces`: a table with one entry per face on the dice, holding how
      many dice show it; filled by one pass over the dice. */
  function CountFaces(d: seq<int>): (m: map<int, nat>)
    ensures forall v :: v in m <==> v in d
    ensures forall v :: v in m ==> m[v] == Count(d, v)
  {
    if d == [] then map[]
    else
      var m := CountFaces(d[..|d| - 1]);
      var v := d[|d| - 1];
      assert d == d[..|d| - 1] + [v];
      m[v := (if v in m then m[v] else 0) + 1]
  }

  /** `counts[face] || 0`. */
  function Lookup(m: map<int, nat>, f: int): nat {
    if f in m then m[f] else 0
  }

  function Entry(m: map<int, nat>, f: int): seq<nat> {
    if f in m then [m[f]] else []
  }

  /** `Object.values(counts)`: for the integer keys 1..6 the values come in
      ascending key order. */
  function Values(m: map<int, nat>): seq<nat> {
    Entry(m, 1) + Entry(m, 2) + Entry(m, 3) + Entry(m, 4) + Entry(m, 5) + Entry(m, 6)
  }

  predicate Descending(s: seq<nat>) {
    forall i, j :: 0 <= i < j < |s| ==> s[i] >= s[j]
  }

  /** A count no smaller than the head of a descending list can go first. */
  lemma ConsDescending(x: nat, t: seq<nat>)
    requires Descending(t) && (|t| > 0 ==> x >= t[0])
    ensures Descending([x] + t)
  {
    assert forall k :: 0 <= k < |t| ==> t[0] >= t[k];
  }

  function InsertDesc(x: nat, s: seq<nat>): (r: seq<nat>)
    requires Descending(s)
    ensures |r| == |s| + 1 && (r[0] == x || (|s| > 0 && r[0] == s[0]))
    ensures Descending(r)
    ensures multiset(r) == multiset(s) + multiset{x}
  {
    if s == [] then [x]
    else if x >= s[0] then
      ConsDescending(x, s);
      [x] + s
    else
      var t := InsertDesc(x, s[1..]);
      assert s == [s[0]] + s[1..];
      ConsDescending(s[0], t);
      [s[0]] + t
  }

  /** `.sort((a, b) => b - a)`: the same counts, largest first. */
  function SortDesc(s: seq<nat>): (r: seq<nat>)
    ensures Descending(r)
    ensures multiset(r) == multiset(s)
  {
    if s == [] then []
    else
      assert s == [s[0]] + s[1..];
      InsertDesc(s[0], SortDesc(s[1..]))
  }

  /** One of the six categories scored by a single face. */
  predicate IsUpper(c: Category) {
    c.Ones? || c.Twos? || c.Threes? || c.Fours? || c.Fives? || c.Sixes?
  }

  /** `faces.indexOf(category) + 1` for the six upper categories. */
  function UpperFace(c: Category): (face: int)
    requires IsUpper(c)
    ensures 1 <= face <= 6 && AllCategories[face - 1] == c
  {
    match c
    case Ones => 1
    case Twos => 2
    case Threes => 3
    case Fours => 4
    case Fives => 5
    case Sixes => 6
  }

  /** `computeScore(category, dice)`: the points the dice earn in a category;
      a tag that names no category earns 0. */
  function ComputeScore(tag: Label, d: seq<int>): (r: int)
    requires AllFaces(d)
    ensures tag == Unrecognised ==> r == 0
  {
    var counts := CountFaces(d);
    var total := Sum(d);
    var byCount := SortDesc(Values(counts));
    var uniqueCount := |counts.Keys|;
    match tag
    case Unrecognised => 0
    case Known(c) =>
      match c
      case Ones | Twos | Threes | Fours | Fives | Sixes =>
        var face := UpperFace(c);
        Lookup(counts, face) * face
      case ThreeOfAKind => if |byCount| > 0 && byCount[0] >= 3 then total else 0
      case FourOfAKind => if |byCount| > 0 && byCount[0] >= 4 then total else 0
      case FullHouse => if |byCount| > 1 && byCount[0] == 3 && byCount[1] == 2 then 25 else 0
      case SmallStraight =>
        if HasAll(d, [1, 2, 3, 4]) || HasAll(d, [2, 3, 4, 5]) || HasAll(d, [3, 4, 5, 6])
        then 30 else 0
      case LargeStraight =>
        var sorted := Join(DistinctSorted(d));
        if sorted == "12345" || sorted == "23456" then 40 else 0
      case Chance => total
      case Yatzy => if uniqueCount == 1 then 50 else 0
  }

  // ----- Facts about the face table ---------------------------------------

  /** The values of a table are the entries it holds under the keys 1..6. */
  lemma ValuesOfTable(m: map<int, nat>, x: int)
    ensures x in Values(m) <==> exists f :: 1 <= f <= 6 && f in m && m[f] == x
  {
    var v := Values(m);
    assert x in v <==> x in Entry(m, 1) || x in Entry(m, 2) || x in Entry(m, 3)
                       || x in Entry(m, 4) || x in Entry(m, 5) || x in Entry(m, 6);
    if exists f :: 1 <= f <= 6 && f in m && m[f] == x {
      var f :| 1 <= f <= 6 && f in m && m[f] == x;
      assert x in Entry(m, f);
    }
  }

  /** The values of the face table are the counts of the faces on the dice. */
  lemma ValuesMembers(d: seq<int>, x: int)
    requires AllFaces(d)
    ensures x in Values(CountFaces(d)) <==> exists f :: IsFace(f) && Count(d, f) == x && x > 0
  {
    var m := CountFaces(d);
    ValuesOfTable(m, x);
    if exists f :: IsFace(f) && Count(d, f) == x && x > 0 {
      var f :| IsFace(f) && Count(d, f) == x && x > 0;
      assert f in m && m[f] == x;
    }
    if exists f :: 1 <= f <= 6 && f in m && m[f] == x {
      var f :| 1 <= f <= 6 && f in m && m[f] == x;
      assert IsFace(f) && Count(d, f) == x && x > 0;
    }
  }

  lemma {:induction false} SumConcat(a: seq<int>, b: seq<int>)
    ensures Sum(a + b) == Sum(a) + Sum(b)
  {
    if b != [] {
      var init, last := b[..|b| - 1], b[|b| - 1];
      SumConcat(a, init);
      assert a + b == (a + init) + [last];
      assert (a + b)[..|a + b| - 1] == a + init;
      assert Sum(a + b) == Sum(a + init) + last;
      assert Sum(b) == Sum(init) + last;
    } else {
      assert a + b == a;
    }
  }

  /** The counts in the face table add up to the number of dice. */
  lemma ValuesSum(d: seq<int>)
    requires AllFaces(d)
    ensures Sum(Values(CountFaces(d))) == |d|
  {
    var m := CountFaces(d);
    forall f ensures Sum(Entry(m, f)) == Count(d, f) {
      if f in m {
        assert [m[f]][..0] == [];
      }
    }
    var e1, e2, e3 := Entry(m, 1), Entry(m, 2), Entry(m, 3);
    var e4, e5, e6 := Entry(m, 4), Entry(m, 5), Entry(m, 6);
    SumConcat(e1, e2);
    SumConcat(e1 + e2, e3);
    SumConcat(e1 + e2 + e3, e4);
    SumConcat(e1 + e2 + e3 + e4, e5);
    SumConcat(e1 + e2 + e3 + e4 + e5, e6);
    CountsSumToLength(d);
  }

  lemma {:induction false} SumAtLeastOne(s: seq<int>, i: int)
    requires AllFaces(s) && 0 <= i < |s|
    ensures Sum(s) >= s[i] + |s| - 1
  {
    var init := s[..|s| - 1];
    if i < |s| - 1 {
      SumAtLeastOne(init, i);
    }
  }

  /** Two entries of a list of faces plus one for each other entry bound its
      sum from below. */
  lemma {:induction false} SumAtLeastTwo(s: seq<int>, i: int, j: int)
    requires AllFaces(s) && 0 <= i < |s| && 0 <= j < |s| && i != j
    ensures Sum(s) >= s[i] + s[j] + |s| - 2
  {
    var init := s[..|s| - 1];
    if i == |s| - 1 {
      SumAtLeastOne(init, j);
    } else if j == |s| - 1 {
      SumAtLeastOne(init, i);
    } else {
      SumAtLeastTwo(init, i, j);
    }
  }

  // ----- The server's tests against the browser's ---------------------------

  /** The top of the sorted counts reaches `k` exactly when some face shows on
      at least `k` dice. */
  lemma TopCountReaches(d: seq<int>, k: int)
    requires AllFaces(d) && k >= 1
    ensures var byCount := SortDesc(Values(CountFaces(d)));
            (|byCount| > 0 && byCount[0] >= k) <==> exists f :: IsFace(f) && Count(d, f) >= k
  {
    var v := Values(CountFaces(d));
    var byCount := SortDesc(v);
    if |byCount| > 0 && byCount[0] >= k {
      assert byCount[0] in multiset(v);
      ValuesMembers(d, byCount[0]);
    }
    if exists f :: IsFace(f) && Count(d, f) >= k {
      var f :| IsFace(f) && Count(d, f) >= k;
      ValuesMembers(d, Count(d, f));
      assert Count(d, f) in multiset(byCount);
      var i :| 0 <= i < |byCount| && byCount[i] == Count(d, f);
      assert byCount[0] >= byCount[i];
    }
  }

  /** Every count in the face table of a hand is between 1 and 5. */
  lemma ValuesAreFaces(d: seq<int>)
    requires IsHand(d)
    ensures AllFaces(Values(CountFaces(d)))
    ensures forall k :: 0 <= k < |Values(CountFaces(d))| ==> Values(CountFaces(d))[k] <= 5
  {
    var m := CountFaces(d);
    var v := Values(m);
    forall k | 0 <= k < |v| ensures IsFace(v[k]) && v[k] <= 5 {
      ValuesOfTable(m, v[k]);
    }
  }

  /** A list of positive counts adding up to five that holds a 3 and a 2 is
      exactly those two. */
  lemma {:induction false} ThreeAndTwoOnly(v: seq<int>)
    requires AllFaces(v) && Sum(v) == 5
    requires 3 in v && 2 in v
    ensures multiset(v) == multiset{3, 2}
  {
    var i :| 0 <= i < |v| && v[i] == 3;
    var j :| 0 <= j < |v| && v[j] == 2;
    SumAtLeastTwo(v, i, j);
    assert |v| == 2;
    assert v == [3, 2] || v == [2, 3];
  }

  /** Sorting a 3 and a 2 in descending order gives [3, 2]. */
  lemma SortedThreeTwo(s: seq<nat>)
    requires Descending(s) && multiset(s) == multiset{3, 2}
    ensures s == [3, 2]
  {
    assert |s| == |multiset(s)| == 2;
    assert s[0] in multiset(s) && s[1] in multiset(s);
    assert s == [s[0], s[1]];
  }

  lemma FullHouseAgrees(d: seq<int>)
    requires IsHand(d)
    ensures var byCount := SortDesc(Values(CountFaces(d)));
            (|byCount| > 1 && byCount[0] == 3 && byCount[1] == 2)
            <==> exists f, g :: IsFace(f) && IsFace(g) && Count(d, f) == 3 && Count(d, g) == 2
  {
    var v := Values(CountFaces(d));
    var byCount := SortDesc(v);
    ValuesMembers(d, 3);
    ValuesMembers(d, 2);
    if |byCount| > 1 && byCount[0] == 3 && byCount[1] == 2 {
      assert byCount[0] in multiset(v) && byCount[1] in multiset(v);
    }
    if 3 in v && 2 in v {
      ValuesAreFaces(d);
      ValuesSum(d);
      ThreeAndTwoOnly(v);
      SortedThreeTwo(byCount);
    }
  }

  /** The number of distinct faces is 1 exactly when every die shows the
      first die's face. */
  lemma OneDistinctFace(d: seq<int>)
    requires |d| > 0
    ensures |CountFaces(d).Keys| == 1 <==> IsYatzy(d)
  {
    var keys := CountFaces(d).Keys;
    assert d[0] in keys;
    if |keys| == 1 {
      forall i | 0 <= i < |d| ensures d[i] == d[0] {
        assert d[i] in keys;
      }
    }
    if IsYatzy(d) {
      assert keys == {d[0]};
    }
  }

  /** `counts[face] || 0` is the number of dice showing `face`. */
  lemma UpperAgrees(d: seq<int>, face: int)
    ensures Lookup(CountFaces(d), face) == Count(d, face)
  {
  }

  /** On every hand the server's scorer and the browser's scoring table give
      the same points for every tag. */
  lemma ScorersAgree(tag: Label, d: seq<int>)
    requires IsHand(d)
    ensures ComputeScore(tag, d) == Score(tag, d)
  {
    match tag
    case Unrecognised =>
    case Known(c) =>
      match c
      case Ones => UpperAgrees(d, 1);
      case Twos => UpperAgrees(d, 2);
      case Threes => UpperAgrees(d, 3);
      case Fours => UpperAgrees(d, 4);
      case Fives => UpperAgrees(d, 5);
      case Sixes => UpperAgrees(d, 6);
      case ThreeOfAKind => TopCountReaches(d, 3); OfAKindRule(d);
      case FourOfAKind => TopCountReaches(d, 4); OfAKindRule(d);
      case FullHouse => FullHouseAgrees(d); FullHouseRule(d);
      case SmallStraight => SmallStraightRule(d);
      case LargeStraight =>
      case Chance =>
      case Yatzy => OneDistinctFace(d);
  }
}
