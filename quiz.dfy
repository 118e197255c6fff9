/** The single-stage questionnaire page: thirty questions drawn from a
    shuffled pool, each answer carrying a score on all three axes, and the
    per-axis means handed to the box classifier. */
module Quiz {
  import opened Geometry
  import opened Optional
  import opened IdeologyMap

  const QuizQuestions: nat := 30

  /** An option's three axis scores, each possibly absent. */
  datatype QuizOption = QuizOption(economic: Option<real>, culture: Option<real>, authority: Option<real>)

  /** A recorded answer: the chosen option and its three scores. */
  datatype QuizAnswer = QuizAnswer(selected: nat, scores: Point)

  /** The change handler's record: a missing score is stored as 0. */
  function Recorded(selected: nat, opt: QuizOption): (x: QuizAnswer)
    ensures x.selected == selected
    ensures x.scores.econ == (if opt.economic.Some? then opt.economic.value else 0.0)
    ensures x.scores.cult == (if opt.culture.Some? then opt.culture.value else 0.0)
    ensures x.scores.auth == (if opt.authority.Some? then opt.authority.value else 0.0)
  {
    QuizAnswer(selected, Point(opt.economic.GetOr(0.0), opt.culture.GetOr(0.0), opt.authority.GetOr(0.0)))
  }

  // ---------------------------------------------------------------------
  // computeScores

  /** Sum over answered indices `0 .. n-1` of the axis-`a` score. */
  function Sum(answers: map<nat, QuizAnswer>, a: Axis, n: nat): real {
    if n == 0 then 0.0
    else Sum(answers, a, n - 1) + (if n - 1 in answers then Coord(answers[n - 1].scores, a) else 0.0)
  }

  /** How many of indices `0 .. n-1` are answered. */
  function Answered(answers: map<nat, QuizAnswer>, n: nat): nat {
    if n == 0 then 0
    else Answered(answers, n - 1) + (if n - 1 in answers then 1 else 0)
  }

  /** The mean on axis `a` over indices `0 .. n-1`; the plain sum when none is answered. */
  function MeanOver(answers: map<nat, QuizAnswer>, a: Axis, n: nat): real {
    var c := Answered(answers, n);
    if c > 0 then Sum(answers, a, n) / (c as real) else Sum(answers, a, n)
  }

  function Mean(answers: map<nat, QuizAnswer>, a: Axis): real {
    MeanOver(answers, a, QuizQuestions)
  }

  /** `computeScores`' result. */
  function Means(answers: map<nat, QuizAnswer>): Point {
    Point(Mean(answers, Economic), Mean(answers, Culture), Mean(answers, Authority))
  }

  /** The loop of `computeScores`: sums and a count, then divide if anything was answered. */
  method ComputeScores(answers: map<nat, QuizAnswer>) returns (r: Point)
    ensures r == Means(answers)
  {
    var econ, cult, auth := 0.0, 0.0, 0.0;
    var count: nat := 0;
    for i := 0 to QuizQuestions
      invariant econ == Sum(answers, Economic, i)
      invariant cult == Sum(answers, Culture, i)
      invariant auth == Sum(answers, Authority, i)
      invariant count == Answered(answers, i)
    {
      if i in answers {
        var x := answers[i];
        econ := econ + x.scores.econ;
        cult := cult + x.scores.cult;
        auth := auth + x.scores.auth;
        count := count + 1;
      }
    }
    if count > 0 {
      econ := econ / (count as real);
      cult := cult / (count as real);
      auth := auth / (count as real);
    }
    r := Point(econ, cult, auth);
  }

  /** Nothing answered among the first `n`: every sum is zero. */
  lemma {:induction false} NothingAnswered(answers: map<nat, QuizAnswer>, a: Axis, n: nat)
    requires Answered(answers, n) == 0
    ensures Sum(answers, a, n) == 0.0
  {
    if n > 0 {
      NothingAnswered(answers, a, n - 1);
    }
  }

  /** With no answers the scores are the origin. */
  lemma NoAnswersOrigin(answers: map<nat, QuizAnswer>)
    requires Answered(answers, QuizQuestions) == 0
    ensures Means(answers) == Point(0.0, 0.0, 0.0)
  {
    NothingAnswered(answers, Economic, QuizQuestions);
    NothingAnswered(answers, Culture, QuizQuestions);
    NothingAnswered(answers, Authority, QuizQuestions);
  }

  /** Every answered index counts once toward the divisor: the count is the number of answered keys below `n`. */
  lemma {:induction false} AnsweredCounts(answers: map<nat, QuizAnswer>, n: nat)
    ensures Answered(answers, n) == |set i: nat | i < n && i in answers|
  {
    if n > 0 {
      AnsweredCounts(answers, n - 1);
      var before := set i: nat | i < n - 1 && i in answers;
      var after := set i: nat | i < n && i in answers;
      if n - 1 in answers {
        assert after == before + {n - 1};
      } else {
        assert after == before;
      }
    }
  }

  /** `k` copies of `x`, added up. */
  function Times(k: nat, x: real): real {
    if k == 0 then 0.0 else Times(k - 1, x) + x
  }

  lemma {:induction false} TimesIsProduct(k: nat, x: real)
    ensures Times(k, x) == (k as real) * x
  {
    if k > 0 {
      TimesIsProduct(k - 1, x);
      assert (k as real) * x == ((k - 1) as real) * x + x;
    }
  }

  /** If every answered score on axis `a` lies in `[lo, hi]`, the sum lies between `count * lo` and `count * hi`. */
  lemma {:induction false} SumBounds(answers: map<nat, QuizAnswer>, a: Axis, n: nat, lo: real, hi: real)
    requires forall i :: i in answers && i < n ==> lo <= Coord(answers[i].scores, a) <= hi
    ensures Times(Answered(answers, n), lo) <= Sum(answers, a, n) <= Times(Answered(answers, n), hi)
  {
    if n > 0 {
      SumBounds(answers, a, n - 1, lo, hi);
      if n - 1 in answers {
        assert lo <= Coord(answers[n - 1].scores, a) <= hi;
      }
    }
  }

  /** A quotient of a sum bounded by `c * lo` and `c * hi` lies in `[lo, hi]`. */
  lemma DivideBounds(s: real, c: real, lo: real, hi: real)
    requires c > 0.0 && c * lo <= s <= c * hi
    ensures lo <= s / c <= hi
  {
    var q := s / c;
    assert q * c == s;
  }

  /** Dividing a sum of `c` values from `[lo, hi]` by `c` stays in `[lo, hi]`. */
  lemma QuotientBounds(total: real, c: nat, lo: real, hi: real)
    requires c > 0 && Times(c, lo) <= total <= Times(c, hi)
    ensures lo <= total / (c as real) <= hi
  {
    TimesIsProduct(c, lo);
    TimesIsProduct(c, hi);
    DivideBounds(total, c as real, lo, hi);
  }

  lemma MeanOverBounds(answers: map<nat, QuizAnswer>, a: Axis, n: nat, lo: real, hi: real)
    requires Answered(answers, n) > 0
    requires forall i :: i in answers && i < n ==> lo <= Coord(answers[i].scores, a) <= hi
    ensures lo <= MeanOver(answers, a, n) <= hi
  {
    SumBounds(answers, a, n, lo, hi);
    QuotientBounds(Sum(answers, a, n), Answered(answers, n), lo, hi);
  }

  /** The mean respects any bounds every answered score on its axis respects. */
  lemma MeanBounds(answers: map<nat, QuizAnswer>, a: Axis, lo: real, hi: real)
    requires Answered(answers, QuizQuestions) > 0
    requires forall i :: i in answers && i < QuizQuestions ==> lo <= Coord(answers[i].scores, a) <= hi
    ensures lo <= Mean(answers, a) <= hi
  {
    MeanOverBounds(answers, a, QuizQuestions, lo, hi);
  }

  // ---------------------------------------------------------------------
  // shuffleInPlace and pickBalancedQuestions

  function Swap<T>(s: seq<T>, i: nat, j: nat): (r: seq<T>)
    requires i < |s| && j < |s|
    ensures |r| == |s| && r[i] == s[j] && r[j] == s[i]
    ensures forall k :: 0 <= k < |s| && k != i && k != j ==> r[k] == s[k]
  {
    s[i := s[j]][j := s[i]]
  }

  /** Picks that a Fisher-Yates pass over `n` cells may draw: the one for cell `i` lies in `0..i`. */
  predicate ValidPicks(picks: seq<nat>, n: nat) {
    |picks| == n && PicksBelow(picks, n)
  }

  /** The picks for cells `0 .. n-1` are present and each lies in `0..i`. */
  predicate PicksBelow(picks: seq<nat>, n: nat) {
    n <= |picks| && forall i :: 0 <= i < n ==> picks[i] <= i
  }

  /** The swaps of cells `n-1` down to `1`, cell `i` with cell `picks[i]`. */
  function Shuffled<T>(s: seq<T>, picks: seq<nat>, n: nat): (r: seq<T>)
    requires n <= |s| && PicksBelow(picks, n)
    ensures |r| == |s|
    decreases n
  {
    if n <= 1 then s
    else Shuffled(Swap(s, n - 1, picks[n - 1]), picks, n - 1)
  }

  lemma SwapPermutes<T>(s: seq<T>, i: nat, j: nat)
    requires i < |s| && j < |s|
    ensures multiset(Swap(s, i, j)) == multiset(s)
  {
    if i != j {
      var t := s[i := s[j]];
      assert multiset(t) == multiset(s) - multiset{s[i]} + multiset{s[j]};
      assert multiset(t[j := s[i]]) == multiset(t) - multiset{s[j]} + multiset{s[i]};
    }
  }

  /** The shuffle only moves elements around. */
  lemma {:induction false} ShuffledPermutes<T>(s: seq<T>, picks: seq<nat>, n: nat)
    requires n <= |s| && PicksBelow(picks, n)
    ensures multiset(Shuffled(s, picks, n)) == multiset(s)
    decreases n
  {
    if n > 1 {
      SwapPermutes(s, n - 1, picks[n - 1]);
      ShuffledPermutes(Swap(s, n - 1, picks[n - 1]), picks, n - 1);
    }
  }

  /**
   * `shuffleInPlace` with the random draws passed in: `picks[i]` is the
   * `j` drawn when the loop stands at `i`.
   */
  method ShuffleInPlace<T>(a: array<T>, picks: seq<nat>)
    requires ValidPicks(picks, a.Length)
    modifies a
    ensures a[..] == Shuffled(old(a[..]), picks, a.Length)
    ensures multiset(a[..]) == multiset(old(a[..]))
  {
    var i := a.Length - 1;
    while i > 0
      invariant -1 <= i < a.Length
      invariant a.Length > 0 ==> 0 <= i
      invariant Shuffled(a[..], picks, i + 1) == Shuffled(old(a[..]), picks, a.Length)
    {
      var j := picks[i];
      assert a[..][i := a[j]][j := a[i]] == Swap(a[..], i, j);
      a[i], a[j] := a[j], a[i];
      i := i - 1;
    }
    ShuffledPermutes(old(a[..]), picks, a.Length);
  }

  /**
   * `pickBalancedQuestions`: shuffle a copy of the pool, then fill thirty
   * slots cyclically from it; an empty pool gives no questions.
   */
  method PickBalancedQuestions<T>(pool: seq<T>, picks: seq<nat>) returns (selected: seq<T>)
    requires ValidPicks(picks, |pool|)
    ensures |pool| == 0 ==> selected == []
    ensures |pool| > 0 ==> |selected| == QuizQuestions
    ensures |pool| > 0 ==> forall i :: 0 <= i < QuizQuestions ==> selected[i] == Shuffled(pool, picks, |pool|)[i % |pool|]
    ensures forall i :: 0 <= i < |selected| ==> selected[i] in multiset(pool)
  {
    selected := [];
    if |pool| == 0 {
      return;
    }
    var a := new T[|pool|](i requires 0 <= i < |pool| => pool[i]);
    assert a[..] == pool;
    ShuffleInPlace(a, picks);
    ghost var shuffled := a[..];
    ShuffledPermutes(pool, picks, |pool|);
    for i := 0 to QuizQuestions
      invariant |selected| == i
      invariant forall k :: 0 <= k < i ==> selected[k] == shuffled[k % |pool|]
      invariant forall k :: 0 <= k < i ==> selected[k] in multiset(pool)
    {
      assert shuffled[i % |pool|] in multiset(shuffled);
      selected := selected + [a[i % |pool|]];
    }
  }

  // ---------------------------------------------------------------------
  // The page state

  class QuizSession {
    /** `currentQuizIndex`. */
    var index: nat
    /** `answers`, keyed by question index. */
    var answers: map<nat, QuizAnswer>

    /** The page stands on one of the thirty questions, every earlier one answered. */
    ghost predicate Valid()
      reads this
    {
      index < QuizQuestions && forall i: nat :: i < index ==> i in answers
    }

    constructor()
      ensures Valid() && index == 0 && answers == map[]
    {
      index := 0;
      answers := map[];
    }

    /** The change handler of an option. */
    method RecordAnswer(selected: nat, opt: QuizOption)
      requires Valid()
      modifies this`answers
      ensures Valid()
      ensures answers == old(answers)[index := Recorded(selected, opt)]
    {
      answers := answers[index := Recorded(selected, opt)];
    }

    /**
     * `nextOrSubmit`: nothing without an answer; otherwise the next question,
     * or at the last one the classifier's verdict on the mean scores.
     */
    method NextOrSubmit() returns (verdict: Option<string>)
      requires Valid()
      modifies this`index
      ensures Valid()
      ensures old(index) !in answers ==> index == old(index) && verdict == None
      ensures old(index) in answers && old(index) < QuizQuestions - 1 ==> index == old(index) + 1 && verdict == None
      ensures old(index) in answers && old(index) == QuizQuestions - 1 ==>
        index == old(index) && verdict == Some(Classification(IdeologyRanges, Means(answers)))
    {
      verdict := None;
      if index !in answers {
        return;
      }
      if index < QuizQuestions - 1 {
        index := index + 1;
      } else {
        var scores := ComputeScores(answers);
        var name := ClassifyIdeology(scores);
        verdict := Some(name);
      }
    }

    /** `prevQuiz`: back one question unless at the first. */
    method PrevQuiz()
      requires Valid()
      modifies this`index
      ensures Valid()
      ensures index == if old(index) > 0 then old(index) - 1 else 0
    {
      if index > 0 {
        index := index - 1;
      }
    }

    /** `restartSurvey`'s quiz part: the first question, no answers. */
    method Restart()
      modifies this
      ensures Valid() && index == 0 && answers == map[]
    {
      index := 0;
      answers := map[];
    }
  }
}
