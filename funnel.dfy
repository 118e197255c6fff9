/** The two-stage survey page: fifteen axis questions fix a category, five
    category questions then score specific ideology terms. This module holds
    the answer store, the two accumulators and the term argmax. */
module Funnel {
  import opened Geometry
  import opened Optional
  import opened Extremes

  const Stage1Questions: nat := 15
  const Stage2Questions: nat := 5
  const TotalQuestions: nat := Stage1Questions + Stage2Questions

  /** What `determineIdeology` answers when no term wins. */
  const Undetermined: string := "未确定"

  /**
   * One entry of `answers`: the chosen option, its `score` (absent when the
   * option has none) and, for stage-1 questions, the question's `axis`
   * (absent on stage-2 entries, or when the axis is missing or unknown).
   */
  datatype Answer = Answer(selected: nat, score: Option<real>, axis: Option<Axis>)

  /** A stage-2 question, reduced to its optional `ideology_terms` list. */
  datatype Stage2Question = Stage2Question(terms: Option<seq<string>>)

  // ---------------------------------------------------------------------
  // Stage 1: per-axis totals over indices 0..14

  /** What answer `x` adds to axis `a`: its score, if it has both a score and that axis. */
  function ContributionOf(x: Answer, a: Axis): real {
    if x.axis == Some(a) && x.score.Some? then x.score.value else 0.0
  }

  function Contribution(answers: map<nat, Answer>, i: nat, a: Axis): real {
    if i in answers then ContributionOf(answers[i], a) else 0.0
  }

  /** Sum of the contributions to axis `a` of indices `0 .. n-1`. */
  function AxisSum(answers: map<nat, Answer>, a: Axis, n: nat): real {
    if n == 0 then 0.0 else AxisSum(answers, a, n - 1) + Contribution(answers, n - 1, a)
  }

  /** `stage1Scores` as `updateStage1Scores` leaves it. */
  function Stage1Totals(answers: map<nat, Answer>): Point {
    Point(AxisSum(answers, Economic, Stage1Questions),
          AxisSum(answers, Culture, Stage1Questions),
          AxisSum(answers, Authority, Stage1Questions))
  }

  /**
   * Re-answering index `i` replaces its old contribution by the new one:
   * the old answer is not counted twice.
   */
  lemma {:induction false} AxisSumOverwrite(answers: map<nat, Answer>, i: nat, x: Answer, a: Axis, n: nat)
    requires i < n
    ensures AxisSum(answers[i := x], a, n) ==
      AxisSum(answers, a, n) - Contribution(answers, i, a) + ContributionOf(x, a)
  {
    if i < n - 1 {
      AxisSumOverwrite(answers, i, x, a, n - 1);
    } else {
      AxisSumUnaffected(answers, i, x, a, n - 1);
    }
  }

  /** An answer at or beyond index `n` leaves the first `n` indices' sum alone. */
  lemma {:induction false} AxisSumUnaffected(answers: map<nat, Answer>, i: nat, x: Answer, a: Axis, n: nat)
    requires i >= n
    ensures AxisSum(answers[i := x], a, n) == AxisSum(answers, a, n)
  {
    if n > 0 {
      AxisSumUnaffected(answers, i, x, a, n - 1);
    }
  }

  /** Stage-2 answers (index 15 and up) never move the stage-1 totals. */
  lemma Stage1IgnoresStage2(answers: map<nat, Answer>, i: nat, x: Answer)
    requires i >= Stage1Questions
    ensures Stage1Totals(answers[i := x]) == Stage1Totals(answers)
  {
    AxisSumUnaffected(answers, i, x, Economic, Stage1Questions);
    AxisSumUnaffected(answers, i, x, Culture, Stage1Questions);
    AxisSumUnaffected(answers, i, x, Authority, Stage1Questions);
  }

  /** With no answers every total is zero: the reset state. */
  lemma {:induction false} AxisSumEmpty(a: Axis, n: nat)
    ensures AxisSum(map[], a, n) == 0.0
  {
    if n > 0 {
      AxisSumEmpty(a, n - 1);
    }
  }

  // ---------------------------------------------------------------------
  // Stage 2: the `stage2Scores` Map, kept in insertion order

  /** A JavaScript `Map` from term to total, as its entries in insertion order. */
  type TermMap = seq<(string, real)>

  predicate UniqueKeys(m: TermMap) {
    forall i, j :: 0 <= i < j < |m| ==> m[i].0 != m[j].0
  }

  /** Where key `t` sits, if anywhere. */
  function Position(m: TermMap, t: string): (r: Option<nat>)
    ensures r.Some? ==> r.value < |m| && m[r.value].0 == t
    ensures r.None? <==> forall k :: 0 <= k < |m| ==> m[k].0 != t
  {
    if |m| == 0 then None
    else if m[0].0 == t then Some(0)
    else match Position(m[1..], t)
      case Some(k) => Some(k + 1)
      case None => None
  }

  /** The total stored for `t`; zero when `t` was never set. */
  function ValueOf(m: TermMap, t: string): real {
    match Position(m, t)
    case Some(k) => m[k].1
    case None => 0.0
  }

  /** Position only looks at the keys. */
  lemma {:induction false} PositionByKeys(m: TermMap, r: TermMap, t: string)
    requires |m| == |r| && forall k :: 0 <= k < |m| ==> m[k].0 == r[k].0
    ensures Position(m, t) == Position(r, t)
  {
    if |m| > 0 && m[0].0 != t {
      PositionByKeys(m[1..], r[1..], t);
    }
  }

  /** Appending a new key leaves earlier keys where they were. */
  lemma {:induction false} PositionAppend(m: TermMap, e: (string, real), t: string)
    ensures Position(m + [e], t) ==
      (if Position(m, t).Some? then Position(m, t) else if e.0 == t then Some(|m|) else None)
  {
    if |m| > 0 && m[0].0 != t {
      assert (m + [e])[1..] == m[1..] + [e];
      PositionAppend(m[1..], e, t);
    }
  }

  /**
   * `if (!has(t)) set(t, 0); set(t, get(t) + v)`: an existing key is
   * updated in place, a new key is appended with `0 + v`.
   */
  function Add(m: TermMap, t: string, v: real): (r: TermMap)
    ensures Position(r, t).Some?
    ensures ValueOf(r, t) == ValueOf(m, t) + v
  {
    match Position(m, t)
    case Some(k) =>
      var r := m[k := (t, m[k].1 + v)];
      PositionByKeys(m, r, t);
      r
    case None =>
      var r := m + [(t, 0.0 + v)];
      PositionAppend(m, (t, 0.0 + v), t);
      r
  }

  /** Every other key keeps its presence and its total. */
  lemma AddElsewhere(m: TermMap, t: string, v: real, u: string)
    requires u != t
    ensures Position(Add(m, t, v), u) == Position(m, u)
    ensures ValueOf(Add(m, t, v), u) == ValueOf(m, u)
  {
    var r := Add(m, t, v);
    match Position(m, t)
    case Some(k) =>
      assert r == m[k := (t, m[k].1 + v)];
      assert forall i :: 0 <= i < |m| ==> m[i].0 == r[i].0;
      PositionByKeys(m, r, u);
    case None =>
      assert r == m + [(t, 0.0 + v)];
      PositionAppend(m, (t, 0.0 + v), u);
  }

  /** A key is appended only when it was absent, so no key appears twice. */
  lemma AddUnique(m: TermMap, t: string, v: real)
    requires UniqueKeys(m)
    ensures UniqueKeys(Add(m, t, v))
  {
  }

  /** `question.ideology_terms.forEach(...)`: add `v` to every listed term, in order. */
  function AddAll(m: TermMap, terms: seq<string>, v: real): TermMap {
    if |terms| == 0 then m else Add(AddAll(m, terms[..|terms| - 1], v), terms[|terms| - 1], v)
  }

  /** What listing `terms` with weight `v` adds to `t`: `v` for each time `t` is listed. */
  function Gain(terms: seq<string>, t: string, v: real): real {
    if |terms| == 0 then 0.0
    else Gain(terms[..|terms| - 1], t, v) + (if terms[|terms| - 1] == t then v else 0.0)
  }

  /** A term that is not listed gains nothing. */
  lemma {:induction false} GainUnlisted(terms: seq<string>, t: string, v: real)
    requires t !in terms
    ensures Gain(terms, t, v) == 0.0
  {
    if |terms| > 0 {
      assert terms == terms[..|terms| - 1] + [terms[|terms| - 1]];
      GainUnlisted(terms[..|terms| - 1], t, v);
    }
  }

  /** Each term gains its `Gain`: `v` per listing. */
  lemma {:induction false} AddAllValue(m: TermMap, terms: seq<string>, v: real, t: string)
    ensures ValueOf(AddAll(m, terms, v), t) == ValueOf(m, t) + Gain(terms, t, v)
  {
    if |terms| > 0 {
      var init, last := terms[..|terms| - 1], terms[|terms| - 1];
      AddAllValue(m, init, v, t);
      if t != last {
        AddElsewhere(AddAll(m, init, v), last, v, t);
      }
    }
  }

  /** The keys gained are exactly the listed terms. */
  lemma {:induction false} AddAllKeys(m: TermMap, terms: seq<string>, v: real, t: string)
    ensures Position(AddAll(m, terms, v), t).Some? <==> Position(m, t).Some? || t in terms
  {
    if |terms| > 0 {
      var init := terms[..|terms| - 1];
      AddAllKeys(m, init, v, t);
      if t != terms[|terms| - 1] {
        AddElsewhere(AddAll(m, init, v), terms[|terms| - 1], v, t);
      }
      assert terms == init + [terms[|terms| - 1]];
    }
  }

  lemma {:induction false} AddAllUnique(m: TermMap, terms: seq<string>, v: real)
    requires UniqueKeys(m)
    ensures UniqueKeys(AddAll(m, terms, v))
  {
    if |terms| > 0 {
      AddAllUnique(m, terms[..|terms| - 1], v);
      AddUnique(AddAll(m, terms[..|terms| - 1], v), terms[|terms| - 1], v);
    }
  }

  /** The `forEach` over a question's terms, one `Add` per listed term. */
  method AddTerms(m: TermMap, terms: seq<string>, v: real) returns (r: TermMap)
    ensures r == AddAll(m, terms, v)
  {
    r := m;
    for j := 0 to |terms|
      invariant r == AddAll(m, terms[..j], v)
    {
      assert terms[..j + 1][..j] == terms[..j];
      r := Add(r, terms[j], v);
    }
    assert terms[..|terms|] == terms;
  }

  /** The score an answer at index `i` carries, if it was answered with one. */
  function Weight(answers: map<nat, Answer>, i: nat): Option<real> {
    if i in answers && answers[i].score.Some? then Some(answers[i].score.value) else None
  }

  /** The terms of the stage-2 question shown at index `i`; none when it is missing. */
  function TermsAt(qs: seq<Stage2Question>, i: nat): seq<string> {
    if Stage1Questions <= i < Stage1Questions + |qs| && qs[i - Stage1Questions].terms.Some? then
      qs[i - Stage1Questions].terms.value
    else []
  }

  /** The term map after scanning stage-2 indices `15 .. n-1`. */
  function TermTotalsUpTo(answers: map<nat, Answer>, qs: seq<Stage2Question>, n: nat): TermMap {
    if n <= Stage1Questions then []
    else
      var m := TermTotalsUpTo(answers, qs, n - 1);
      match Weight(answers, n - 1)
      case Some(v) => AddAll(m, TermsAt(qs, n - 1), v)
      case None => m
  }

  /** `stage2Scores` as `updateStage2Scores` leaves it; empty without a question set. */
  function Stage2Totals(answers: map<nat, Answer>, qs: Option<seq<Stage2Question>>): TermMap {
    match qs
    case None => []
    case Some(q) => TermTotalsUpTo(answers, q, TotalQuestions)
  }

  /** Independent reference: the sum of each answered question's gain for `t` over indices `15 .. n-1`. */
  function TermSum(answers: map<nat, Answer>, qs: seq<Stage2Question>, t: string, n: nat): real {
    if n <= Stage1Questions then 0.0
    else
      TermSum(answers, qs, t, n - 1) +
      (match Weight(answers, n - 1)
       case Some(v) => Gain(TermsAt(qs, n - 1), t, v)
       case None => 0.0)
  }

  /** Some answered index in `15 .. n-1` lists `t`. */
  predicate Listed(answers: map<nat, Answer>, qs: seq<Stage2Question>, t: string, n: nat) {
    exists i :: Stage1Questions <= i < n && Weight(answers, i).Some? && t in TermsAt(qs, i)
  }

  /** Each term's total is the reference sum. */
  lemma {:induction false} TermTotalsValue(answers: map<nat, Answer>, qs: seq<Stage2Question>, n: nat, t: string)
    ensures ValueOf(TermTotalsUpTo(answers, qs, n), t) == TermSum(answers, qs, t, n)
  {
    if n > Stage1Questions {
      TermTotalsValue(answers, qs, n - 1, t);
      if Weight(answers, n - 1).Some? {
        AddAllValue(TermTotalsUpTo(answers, qs, n - 1), TermsAt(qs, n - 1), Weight(answers, n - 1).value, t);
      }
    }
  }

  lemma ListedStep(answers: map<nat, Answer>, qs: seq<Stage2Question>, t: string, n: nat)
    requires n > Stage1Questions
    ensures Listed(answers, qs, t, n) <==>
      Listed(answers, qs, t, n - 1) || (Weight(answers, n - 1).Some? && t in TermsAt(qs, n - 1))
  {
    if Listed(answers, qs, t, n) {
      var i :| Stage1Questions <= i < n && Weight(answers, i).Some? && t in TermsAt(qs, i);
      if i < n - 1 {
        assert Listed(answers, qs, t, n - 1);
      }
    }
  }

  /** The keys are exactly the terms some answered question lists. */
  lemma {:induction false} TermTotalsKeys(answers: map<nat, Answer>, qs: seq<Stage2Question>, n: nat, t: string)
    ensures Position(TermTotalsUpTo(answers, qs, n), t).Some? <==> Listed(answers, qs, t, n)
  {
    if n > Stage1Questions {
      TermTotalsKeys(answers, qs, n - 1, t);
      ListedStep(answers, qs, t, n);
      if Weight(answers, n - 1).Some? {
        AddAllKeys(TermTotalsUpTo(answers, qs, n - 1), TermsAt(qs, n - 1), Weight(answers, n - 1).value, t);
      }
    }
  }

  /** No key is stored twice. */
  lemma {:induction false} TermTotalsUnique(answers: map<nat, Answer>, qs: seq<Stage2Question>, n: nat)
    ensures UniqueKeys(TermTotalsUpTo(answers, qs, n))
  {
    if n > Stage1Questions {
      TermTotalsUnique(answers, qs, n - 1);
      if Weight(answers, n - 1).Some? {
        AddAllUnique(TermTotalsUpTo(answers, qs, n - 1), TermsAt(qs, n - 1), Weight(answers, n - 1).value);
      }
    }
  }

  /** With no question set for the category the map is empty. */
  lemma NoQuestionSetNoTerms(answers: map<nat, Answer>)
    ensures Stage2Totals(answers, None) == []
  {
  }

  // ---------------------------------------------------------------------
  // The term argmax

  function Values(m: TermMap): (vs: seq<real>)
    ensures |vs| == |m|
    ensures forall k :: 0 <= k < |m| ==> vs[k] == m[k].1
  {
    seq(|m|, k requires 0 <= k < |m| => m[k].1)
  }

  /** Entry `w` has the highest total and every earlier entry a strictly lower one. */
  predicate FirstBest(m: TermMap, w: nat) {
    w < |m| &&
    (forall k :: 0 <= k < |m| ==> m[k].1 <= m[w].1) &&
    (forall k :: 0 <= k < w ==> m[k].1 < m[w].1)
  }

  /**
   * `determineIdeology`: the first term with the highest total, in insertion
   * order; `bestMatch || "未确定"` also turns an empty term name into 未确定.
   */
  function IdeologyOf(m: TermMap): (r: string)
    ensures |m| == 0 ==> r == Undetermined
    ensures |m| > 0 ==> exists w: nat :: FirstBest(m, w) && r == (if m[w].0 == "" then Undetermined else m[w].0)
  {
    if |m| == 0 then Undetermined
    else
      var w := FirstMax(Values(m));
      assert FirstBest(m, w);
      if m[w].0 == "" then Undetermined else m[w].0
  }

  /** There is one first-best entry, so the answer is determined by the totals. */
  lemma FirstBestUnique(m: TermMap, w1: nat, w2: nat)
    requires FirstBest(m, w1) && FirstBest(m, w2)
    ensures w1 == w2
  {
    assert m[w1].1 <= m[w2].1 && m[w2].1 <= m[w1].1;
  }

  /** The scan itself, with `bestScore = -Infinity` as `None`. */
  method DetermineIdeology(m: TermMap) returns (r: string)
    ensures r == IdeologyOf(m)
  {
    var bestMatch: Option<string> := None;
    var bestScore: Option<real> := None;
    ghost var vs := Values(m);
    ghost var w := 0;
    for i := 0 to |m|
      invariant i == 0 ==> bestMatch.None? && bestScore.None?
      invariant i > 0 ==> w == FirstMax(vs[..i]) && bestMatch == Some(m[w].0) && bestScore == Some(m[w].1)
    {
      if i > 0 {
        FirstMaxStep(vs, i);
      } else {
        assert vs[..1] == [vs[0]];
      }
      if bestScore.None? || m[i].1 > bestScore.value {
        bestScore := Some(m[i].1);
        bestMatch := Some(m[i].0);
        w := i;
      }
    }
    if |m| > 0 {
      assert vs[..|m|] == vs;
    }
    r := if bestMatch.None? || bestMatch.value == "" then Undetermined else bestMatch.value;
  }
}
