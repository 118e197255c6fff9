/** The stage-1 category ranking of the survey page: every category gets a
    score from the stage-1 totals, the list is sorted by descending score
    with a stable sort, and the head of the list is the category. */
module Ranking {
  import opened Geometry
  import opened Optional
  import opened IdeologyMap

  /**
   * A match score. A category whose box holds the point scores
   * `1000 - sqrt(d)` where `d` is the squared distance to the box centre:
   * that is `Full(d)`. Any other category scores a plain number:
   * `Partial(value)`. Keeping `d` squared keeps the comparison exact.
   */
  datatype Score = Full(sqDist: real) | Partial(value: real)

  /** Per-axis fit, each between 0 and 100. */
  datatype Details = Details(economic: real, culture: real, authority: real)

  /** One entry of the list `calculateAllMatches` builds. */
  datatype Match = Match(name: string, score: Score, details: Details, box: Box)

  /**
   * `a` scores at least as high as `b`, read off `1000 - sqrt(d)`:
   * `1000 - sqrt(d) >= s` exactly when `s <= 1000` and `d <= (1000 - s)²`.
   */
  predicate AtLeast(a: Score, b: Score) {
    match (a, b)
    case (Full(d1), Full(d2)) => d1 <= d2
    case (Partial(s1), Partial(s2)) => s1 >= s2
    case (Full(d), Partial(s)) => s <= 1000.0 && d <= Sq(1000.0 - s)
    case (Partial(s), Full(d)) => s >= 1000.0 || d >= Sq(1000.0 - s)
  }

  /** A squared distance is never negative. */
  predicate ValidScore(a: Score) {
    a.Full? ==> a.sqDist >= 0.0
  }

  lemma AtLeastReflexive(a: Score)
    ensures AtLeast(a, a)
  {
  }

  /** Any two scores are comparable. */
  lemma AtLeastTotal(a: Score, b: Score)
    ensures AtLeast(a, b) || AtLeast(b, a)
  {
  }

  lemma {:induction false} AtLeastTransitive(a: Score, b: Score, c: Score)
    requires ValidScore(a) && ValidScore(b) && ValidScore(c)
    requires AtLeast(a, b) && AtLeast(b, c)
    ensures AtLeast(a, c)
  {
    match (a, b, c)
    case (Full(d), Partial(s), Full(e)) =>
    case (Partial(s1), Full(d), Partial(s2)) =>
      if s1 < 1000.0 {
        if s1 < s2 {
          SqStrictMonotone(1000.0 - s2, 1000.0 - s1);
        }
      }
    case (Full(d), Partial(s1), Partial(s2)) =>
      SqMonotone(1000.0 - s1, 1000.0 - s2);
    case (Partial(s1), Partial(s2), Full(d)) =>
      if s1 < 1000.0 {
        SqMonotone(1000.0 - s1, 1000.0 - s2);
      }
    case _ =>
  }

  /** `Math.max(0, 100 - 10 * min(|v - lo|, |v - hi|))` for an axis outside its range. */
  function Fit(v: real, r: Range): (f: real)
    ensures 0.0 <= f <= 100.0
    ensures InRange(v, r) ==> f == 100.0
    ensures !InRange(v, r) && r.lo <= r.hi ==> f < 100.0
  {
    if InRange(v, r) then 100.0
    else
      var dLo := if v >= r.lo then v - r.lo else r.lo - v;
      var dHi := if v >= r.hi then v - r.hi else r.hi - v;
      var d := if dLo <= dHi then dLo else dHi;
      if 100.0 - d * 10.0 > 0.0 then 100.0 - d * 10.0 else 0.0
  }

  function Count(b: bool): real {
    if b then 1.0 else 0.0
  }

  /** The score and details `calculateAllMatches` gives category `e` at point `p`. */
  function MatchOf(e: NamedBox, p: Point): (m: Match)
    ensures m.name == e.name && m.box == e.box
    ensures ValidScore(m.score)
    ensures m.score.Full? <==> Contains(e.box, p)
    ensures m.score.Full? ==> m.score.sqDist == SqDist(p, e.box) && m.details == Details(100.0, 100.0, 100.0)
    ensures m.score.Partial? ==> 0.0 <= m.score.value <= 300.0
    ensures m.score.Partial? && WellFormed(e.box) ==> m.score.value < 300.0
    ensures 0.0 <= m.details.economic <= 100.0 && 0.0 <= m.details.culture <= 100.0
    ensures 0.0 <= m.details.authority <= 100.0
  {
    var b := e.box;
    if Contains(b, p) then
      Match(e.name, Full(SqDist(p, b)), Details(100.0, 100.0, 100.0), b)
    else
      var d := Details(Fit(p.econ, b.econ), Fit(p.cult, b.cult), Fit(p.auth, b.auth));
      var count := Count(InRange(p.econ, b.econ)) + Count(InRange(p.cult, b.cult)) + Count(InRange(p.auth, b.auth));
      Match(e.name, Partial(count * 100.0 + (d.economic + d.culture + d.authority) / 3.0), d, b)
  }

  /** The unsorted list: one match per category, in catalog order. */
  function AllMatches(cats: seq<NamedBox>, p: Point): (m: seq<Match>)
    ensures |m| == |cats|
    ensures forall k :: 0 <= k < |cats| ==> m[k] == MatchOf(cats[k], p)
  {
    seq(|cats|, k requires 0 <= k < |cats| => MatchOf(cats[k], p))
  }

  /** Every score in the list has a meaning. */
  predicate AllValid(m: seq<Match>) {
    forall k :: 0 <= k < |m| ==> ValidScore(m[k].score)
  }

  /**
   * Index `x` goes before index `y` in the sorted list: its score is at
   * least as high, and on equal scores the earlier index stays first
   * (the sort is stable).
   */
  predicate Before(m: seq<Match>, x: nat, y: nat)
    requires x < |m| && y < |m|
  {
    AtLeast(m[x].score, m[y].score) && (AtLeast(m[y].score, m[x].score) ==> x < y)
  }

  /** `order` lists the indices below `n` once each, sorted stably by score. */
  ghost predicate IsRanking(m: seq<Match>, n: nat, order: seq<nat>)
    requires n <= |m|
  {
    |order| == n &&
    (forall t :: 0 <= t < |order| ==> order[t] < n) &&
    (forall k :: 0 <= k < n ==> k in order) &&
    (forall s, t :: 0 <= s < t < |order| ==> Before(m, order[s], order[t]))
  }

  function Reorder(m: seq<Match>, order: seq<nat>): (r: seq<Match>)
    requires forall t :: 0 <= t < |order| ==> order[t] < |m|
    ensures |r| == |order|
    ensures forall t :: 0 <= t < |order| ==> r[t] == m[order[t]]
  {
    seq(|order|, t requires 0 <= t < |order| => m[order[t]])
  }

  /** Inserting `i` after every entry that scores at least as high keeps a stable ranking. */
  lemma {:induction false} InsertKeepsRanking(m: seq<Match>, i: nat, order: seq<nat>, j: nat)
    requires AllValid(m)
    requires i < |m| && IsRanking(m, i, order) && j <= |order|
    requires forall t :: 0 <= t < j ==> AtLeast(m[order[t]].score, m[i].score)
    requires j < |order| ==> !AtLeast(m[order[j]].score, m[i].score)
    ensures IsRanking(m, i + 1, order[..j] + [i] + order[j..])
  {
    var o := order[..j] + [i] + order[j..];
    assert forall t :: 0 <= t < |o| ==> o[t] == (if t < j then order[t] else if t == j then i else order[t - 1]);
    forall k | 0 <= k < i + 1
      ensures k in o
    {
      if k < i {
        assert k in order;
        var t :| 0 <= t < |order| && order[t] == k;
        assert o[if t < j then t else t + 1] == k;
      } else {
        assert o[j] == k;
      }
    }
    forall t | j < t < |order|
      ensures AtLeast(m[i].score, m[order[t]].score) && !AtLeast(m[order[t]].score, m[i].score)
    {
      assert Before(m, order[j], order[t]);
      AtLeastTotal(m[i].score, m[order[j]].score);
      AtLeastTransitive(m[i].score, m[order[j]].score, m[order[t]].score);
      if AtLeast(m[order[t]].score, m[i].score) {
        AtLeastTransitive(m[order[j]].score, m[order[t]].score, m[i].score);
      }
    }
    if j < |order| {
      AtLeastTotal(m[i].score, m[order[j]].score);
    }
    forall s, t | 0 <= s < t < |o|
      ensures Before(m, o[s], o[t])
    {
      if t == j {
        assert o[s] == order[s] && order[s] < i;
      } else if s == j {
        assert o[t] == order[t - 1];
      }
    }
  }

  /** The stable descending sort `matches.sort((a, b) => b.score - a.score)`, as a permutation of indices. */
  method RankOrder(m: seq<Match>) returns (order: seq<nat>)
    requires AllValid(m)
    ensures IsRanking(m, |m|, order)
  {
    order := [];
    for i := 0 to |m|
      invariant IsRanking(m, i, order)
    {
      var j := 0;
      while j < |order| && AtLeast(m[order[j]].score, m[i].score)
        invariant 0 <= j <= |order|
        invariant forall t :: 0 <= t < j ==> AtLeast(m[order[t]].score, m[i].score)
      {
        j := j + 1;
      }
      InsertKeepsRanking(m, i, order, j);
      order := order[..j] + [i] + order[j..];
    }
  }

  /** `calculateAllMatches`: score every category, then sort. */
  method CalculateAllMatches(cats: seq<NamedBox>, p: Point) returns (ranked: seq<Match>, ghost order: seq<nat>)
    ensures IsRanking(AllMatches(cats, p), |cats|, order)
    ensures ranked == Reorder(AllMatches(cats, p), order)
    ensures multiset(ranked) == multiset(AllMatches(cats, p))
  {
    var matches: seq<Match> := [];
    for i := 0 to |cats|
      invariant matches == AllMatches(cats[..i], p)
    {
      matches := matches + [MatchOf(cats[i], p)];
    }
    assert cats[..|cats|] == cats;
    var o := RankOrder(matches);
    ranked := seq(|o|, t requires 0 <= t < |o| => matches[o[t]]);
    order := o;
    RankingPermutes(matches, o);
  }

  /** `order` lists each index below `n` exactly once. */
  ghost predicate IsIndexPermutation(order: seq<nat>, n: nat) {
    |order| == n &&
    (forall t :: 0 <= t < |order| ==> order[t] < n) &&
    (forall s, t :: 0 <= s < t < |order| ==> order[s] != order[t]) &&
    (forall k :: 0 <= k < n ==> k in order)
  }

  /** In a ranking of all indices no index appears twice. */
  lemma RankingIsPermutation(m: seq<Match>, order: seq<nat>)
    requires IsRanking(m, |m|, order)
    ensures IsIndexPermutation(order, |m|)
  {
    forall s, t | 0 <= s < t < |order|
      ensures order[s] != order[t]
    {
      assert Before(m, order[s], order[t]);
    }
  }

  /** Dropping the largest index from a permutation leaves a permutation of the rest. */
  lemma DropLast(order: seq<nat>, n: nat, t: nat)
    requires IsIndexPermutation(order, n + 1) && t < |order| && order[t] == n
    ensures IsIndexPermutation(order[..t] + order[t + 1..], n)
  {
    var rest := order[..t] + order[t + 1..];
    assert forall u :: 0 <= u < |rest| ==> rest[u] == (if u < t then order[u] else order[u + 1]);
    forall k | 0 <= k < n
      ensures k in rest
    {
      assert k in order;
      var v :| 0 <= v < |order| && order[v] == k;
      assert rest[if v < t then v else v - 1] == k;
    }
  }

  /** Reordering with the last index taken out leaves a gap where it stood. */
  lemma ReorderSplit(m: seq<Match>, order: seq<nat>, t: nat)
    requires |m| > 0 && t < |order| && order[t] == |m| - 1
    requires forall u :: 0 <= u < |order| ==> order[u] < |m|
    requires IsIndexPermutation(order[..t] + order[t + 1..], |m| - 1)
    ensures var r' := Reorder(m[..|m| - 1], order[..t] + order[t + 1..]);
      Reorder(m, order) == r'[..t] + [m[|m| - 1]] + r'[t..]
  {
    var n := |m| - 1;
    var rest := order[..t] + order[t + 1..];
    var r' := Reorder(m[..n], rest);
    var gap := r'[..t] + [m[n]] + r'[t..];
    assert |gap| == |order|;
    forall u | 0 <= u < |order|
      ensures gap[u] == m[order[u]]
    {
      if u < t {
        assert rest[u] == order[u];
        assert gap[u] == r'[u];
      } else if u > t {
        assert rest[u - 1] == order[u];
        assert gap[u] == r'[u - 1];
      }
    }
  }

  lemma InsertCounts(a: seq<Match>, x: Match, t: nat)
    requires t <= |a|
    ensures multiset(a[..t] + [x] + a[t..]) == multiset(a) + multiset{x}
  {
    assert a == a[..t] + a[t..];
  }

  /** Reordering by a permutation of the indices permutes the list. */
  lemma {:induction false} ReorderPermutes(m: seq<Match>, order: seq<nat>)
    requires IsIndexPermutation(order, |m|)
    ensures multiset(Reorder(m, order)) == multiset(m)
  {
    if |m| > 0 {
      var n := |m| - 1;
      assert n in order;
      var t :| 0 <= t < |order| && order[t] == n;
      var rest := order[..t] + order[t + 1..];
      DropLast(order, n, t);
      ReorderSplit(m, order, t);
      ReorderPermutes(m[..n], rest);
      InsertCounts(Reorder(m[..n], rest), m[n], t);
      assert m == m[..n] + [m[n]];
    }
  }

  /** The sorted list is a permutation of the unsorted one. */
  lemma RankingPermutes(m: seq<Match>, order: seq<nat>)
    requires IsRanking(m, |m|, order)
    ensures multiset(Reorder(m, order)) == multiset(m)
  {
    RankingIsPermutation(m, order);
    ReorderPermutes(m, order);
  }

  /**
   * Position `w` holds the head of the sorted list: its score is the highest,
   * and every earlier entry scores strictly less.
   */
  ghost predicate IsTop(m: seq<Match>, w: nat) {
    w < |m| &&
    (forall k :: 0 <= k < |m| ==> AtLeast(m[w].score, m[k].score)) &&
    (forall k :: 0 <= k < w ==> !AtLeast(m[k].score, m[w].score))
  }

  /** The head of a stable ranking is the first highest-scoring entry. */
  lemma {:induction false} RankingHead(m: seq<Match>, order: seq<nat>)
    requires |m| > 0 && IsRanking(m, |m|, order)
    ensures IsTop(m, order[0])
  {
    forall k | 0 <= k < |m|
      ensures AtLeast(m[order[0]].score, m[k].score)
      ensures k < order[0] ==> !AtLeast(m[k].score, m[order[0]].score)
    {
      assert k in order;
      var t :| 0 <= t < |order| && order[t] == k;
      if t == 0 {
        AtLeastReflexive(m[k].score);
      } else {
        assert Before(m, order[0], order[t]);
      }
    }
  }

  /** There is only one head. */
  lemma TopUnique(m: seq<Match>, w1: nat, w2: nat)
    requires IsTop(m, w1) && IsTop(m, w2)
    ensures w1 == w2
  {
    assert AtLeast(m[w1].score, m[w2].score);
    assert AtLeast(m[w2].score, m[w1].score);
  }

  /**
   * `determineCategory`: the name at the head of the sorted list. With no
   * categories at all `matches[0]` is undefined and the page throws; that is
   * `None` here.
   */
  method DetermineCategory(cats: seq<NamedBox>, p: Point) returns (name: Option<string>)
    ensures name.None? <==> |cats| == 0
    ensures name.Some? ==> exists w: nat :: IsTop(AllMatches(cats, p), w) && name.value == cats[w].name
  {
    var ranked, order := CalculateAllMatches(cats, p);
    if |ranked| == 0 {
      name := None;
    } else {
      RankingHead(AllMatches(cats, p), order);
      name := Some(ranked[0].name);
    }
  }

  /**
   * When every box is small enough that a full match outscores every partial
   * one, and some box holds the point, the head of the list holds it too,
   * and it is the first holding box nearest its centre.
   */
  lemma {:induction false} ContainingCategoryWins(cats: seq<NamedBox>, p: Point, w: nat, k: nat)
    requires forall i :: 0 <= i < |cats| ==> HalfDiagSq(cats[i].box) < 490000.0
    requires k < |cats| && Contains(cats[k].box, p)
    requires IsTop(AllMatches(cats, p), w)
    ensures Contains(cats[w].box, p)
    ensures forall i :: 0 <= i < |cats| && Contains(cats[i].box, p) ==> SqDist(p, cats[w].box) <= SqDist(p, cats[i].box)
    ensures forall i :: 0 <= i < w && Contains(cats[i].box, p) ==> SqDist(p, cats[i].box) > SqDist(p, cats[w].box)
  {
    var m := AllMatches(cats, p);
    ContainedNearCenter(cats[k].box, p);
    assert AtLeast(m[w].score, m[k].score);
    if !Contains(cats[w].box, p) {
      var s := m[w].score.value;
      SqMonotone(700.0, 1000.0 - s);
      assert false;
    }
  }

  /**
   * When a box that holds the point has a half-diagonal below 700, it
   * scores above 300, and every box that does not hold the point scores
   * strictly less.
   */
  lemma ContainingOutranks(cats: seq<NamedBox>, p: Point, i: nat, j: nat)
    requires i < |cats| && j < |cats|
    requires HalfDiagSq(cats[i].box) < 490000.0 && Contains(cats[i].box, p)
    ensures !Contains(cats[j].box, p) ==>
      AtLeast(AllMatches(cats, p)[i].score, AllMatches(cats, p)[j].score) &&
      !AtLeast(AllMatches(cats, p)[j].score, AllMatches(cats, p)[i].score)
  {
    var m := AllMatches(cats, p);
    if !Contains(cats[j].box, p) {
      ContainedNearCenter(cats[i].box, p);
      SqMonotone(700.0, 1000.0 - m[j].score.value);
    }
  }

  /**
   * In the sorted list, with every half-diagonal below 700, the boxes that
   * hold the point come first: anything ranked ahead of a holding box holds
   * the point too.
   */
  lemma ContainingFirst(cats: seq<NamedBox>, p: Point, order: seq<nat>, s: nat, t: nat)
    requires forall i :: 0 <= i < |cats| ==> HalfDiagSq(cats[i].box) < 490000.0
    requires IsRanking(AllMatches(cats, p), |cats|, order)
    requires s < t < |cats| && Contains(cats[order[t]].box, p)
    ensures Contains(cats[order[s]].box, p)
  {
    assert Before(AllMatches(cats, p), order[s], order[t]);
    ContainingOutranks(cats, p, order[t], order[s]);
  }

  /**
   * Under the same conditions, and for a point already inside the score
   * range, the ranking picks the same category as the nearest-centre
   * classifier of the result page.
   */
  lemma AgreesWithClassification(cats: seq<NamedBox>, p: Point, w: nat, k: nat)
    requires forall i :: 0 <= i < |cats| ==> HalfDiagSq(cats[i].box) < 490000.0
    requires k < |cats| && Contains(cats[k].box, p)
    requires IsTop(AllMatches(cats, p), w)
    requires ClampScores(p) == p
    ensures cats[w].name == Classification(cats, p)
  {
    ContainingCategoryWins(cats, p, w, k);
    assert Candidate(cats, p, k, true);
    var v := ClassificationSpec(cats, p);
    assert SqDist(p, cats[w].box) <= SqDist(p, cats[v].box);
    assert SqDist(p, cats[v].box) <= SqDist(p, cats[w].box);
  }
}
