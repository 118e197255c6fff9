/** The survey page's state and its event handlers: recording answers,
    moving forward (and into stage 2, and to the result), moving back and
    restarting. */
module SurveyPage {
  import opened Geometry
  import opened Optional
  import opened Funnel
  import opened Ranking

  /** `currentStage`: 1 while the axis questions run, 2 for the category questions. */
  datatype Stage = One | Two

  /** Where the page may stand: stage 1 shows indices 0..14, stage 2 shows 15..19. */
  predicate ValidPosition(stage: Stage, index: nat) {
    match stage
    case One => index < Stage1Questions
    case Two => Stage1Questions <= index < TotalQuestions
  }

  // ---------------------------------------------------------------------
  // Going back one question

  /**
   * `prevQuestion` as it is written: any index above 0 is decremented, and
   * only index 0 in stage 2 returns to stage 1.
   */
  function PrevAsWritten(stage: Stage, index: nat): (Stage, nat) {
    if index > 0 then (stage, index - 1)
    else if stage == Two then (One, Stage1Questions - 1)
    else (stage, index)
  }

  /**
   * Backing out of the first stage-2 question leaves the page in stage 2 at
   * index 14, where the stage-2 renderer looks up question -1; from every
   * other valid position the written handler stays on a valid one.
   */
  lemma PrevAsWrittenLeavesStage2(stage: Stage, index: nat)
    requires ValidPosition(stage, index)
    ensures ValidPosition(PrevAsWritten(stage, index).0, PrevAsWritten(stage, index).1) <==>
      !(stage == Two && index == Stage1Questions)
  {
  }

  /** The concrete case: (2, 15) goes to (2, 14), and 14 - 15 is no question of stage 2. */
  lemma PrevAsWrittenExample()
    ensures PrevAsWritten(Two, 15) == (Two, 14)
    ensures !ValidPosition(Two, 14) && 14 - Stage1Questions < 0
  {
  }

  /**
   * `prevQuestion` as intended: the first stage-2 question goes back to the
   * last stage-1 question; otherwise step back within the stage.
   */
  function Prev(stage: Stage, index: nat): (Stage, nat) {
    if stage == Two && index == Stage1Questions then (One, Stage1Questions - 1)
    else if index > 0 then (stage, index - 1)
    else (stage, index)
  }

  /** The intended handler never leaves the valid positions, and only stays put at the very first question. */
  lemma PrevKeepsPosition(stage: Stage, index: nat)
    requires ValidPosition(stage, index)
    ensures ValidPosition(Prev(stage, index).0, Prev(stage, index).1)
    ensures Prev(stage, index) == (stage, index) <==> stage == One && index == 0
  {
  }

  // ---------------------------------------------------------------------
  // The page state

  /** The question set shown in stage 2: `stage2Questions[determinedCategory]`, if there is one. */
  function QuestionsFor(sets: map<string, seq<Stage2Question>>, category: Option<string>): Option<seq<Stage2Question>> {
    if category.Some? && category.value in sets then Some(sets[category.value]) else None
  }

  class Survey {
    /** `ideologyCategories`, in key order. */
    const categories: seq<NamedBox>
    /** `stage2Questions`: the question set of each category. */
    const questionSets: map<string, seq<Stage2Question>>

    var stage: Stage
    var index: nat
    var answers: map<nat, Answer>
    var stage1: Point
    var stage2: TermMap
    var category: Option<string>
    var ideology: Option<string>

    /**
     * The page stands on a question of its stage, every earlier question is
     * answered, the axis totals match the answers, stage 2 has a category,
     * and a category is always one of the catalog's names.
     */
    ghost predicate Valid()
      reads this
    {
      ValidPosition(stage, index) &&
      (forall i: nat :: i < index ==> i in answers) &&
      stage1 == Stage1Totals(answers) &&
      (stage == Two ==> category.Some?) &&
      (category.Some? ==> exists w: nat :: w < |categories| && categories[w].name == category.value)
    }

    constructor(categories: seq<NamedBox>, questionSets: map<string, seq<Stage2Question>>)
      ensures Valid()
      ensures this.categories == categories && this.questionSets == questionSets
      ensures stage == One && index == 0 && answers == map[]
      ensures stage1 == Point(0.0, 0.0, 0.0) && stage2 == []
      ensures category == None && ideology == None
    {
      this.categories := categories;
      this.questionSets := questionSets;
      stage := One;
      index := 0;
      answers := map[];
      stage1 := Point(0.0, 0.0, 0.0);
      stage2 := [];
      category := None;
      ideology := None;
      AxisSumEmpty(Economic, Stage1Questions);
      AxisSumEmpty(Culture, Stage1Questions);
      AxisSumEmpty(Authority, Stage1Questions);
    }

    /** `updateStage1Scores`: reset the three totals and add up indices 0..14. */
    method UpdateStage1Scores()
      modifies this`stage1
      ensures stage1 == Stage1Totals(answers)
    {
      var econ, cult, auth := 0.0, 0.0, 0.0;
      for i := 0 to Stage1Questions
        invariant econ == AxisSum(answers, Economic, i)
        invariant cult == AxisSum(answers, Culture, i)
        invariant auth == AxisSum(answers, Authority, i)
      {
        if i in answers && answers[i].axis.Some? && answers[i].score.Some? {
          var s := answers[i].score.value;
          match answers[i].axis.value
          case Economic => econ := econ + s;
          case Culture => cult := cult + s;
          case Authority => auth := auth + s;
        }
      }
      stage1 := Point(econ, cult, auth);
    }

    /**
     * `updateStage2Scores`: clear the term map, then for each answered
     * stage-2 index add its score to every term its question lists.
     */
    method UpdateStage2Scores()
      modifies this`stage2
      ensures stage2 == Stage2Totals(answers, QuestionsFor(questionSets, category))
    {
      stage2 := [];
      var qs := QuestionsFor(questionSets, category);
      if qs.None? {
        return;
      }
      var m: TermMap := [];
      for i := Stage1Questions to TotalQuestions
        invariant m == TermTotalsUpTo(answers, qs.value, i)
      {
        if i in answers && answers[i].score.Some? {
          m := AddTerms(m, TermsAt(qs.value, i), answers[i].score.value);
        }
      }
      stage2 := m;
    }

    /** The change handler of a stage-1 option: store the answer with its axis, then retotal. */
    method RecordStage1Answer(selected: nat, score: Option<real>, axis: Option<Axis>)
      requires Valid() && stage == One
      modifies this
      ensures Valid()
      ensures answers == old(answers)[index := Answer(selected, score, axis)]
      ensures forall a ::
        Coord(stage1, a) == Coord(old(stage1), a) - Contribution(old(answers), index, a) +
          ContributionOf(Answer(selected, score, axis), a)
      ensures stage == old(stage) && index == old(index) && stage2 == old(stage2)
      ensures category == old(category) && ideology == old(ideology)
    {
      var x := Answer(selected, score, axis);
      ghost var before := answers;
      answers := answers[index := x];
      UpdateStage1Scores();
      forall a: Axis
        ensures AxisSum(answers, a, Stage1Questions) ==
          AxisSum(before, a, Stage1Questions) - Contribution(before, index, a) + ContributionOf(x, a)
      {
        AxisSumOverwrite(before, index, x, a, Stage1Questions);
      }
    }

    /**
     * The change handler of a stage-2 option: store the answer (no axis) and,
     * the stage being 2, retotal the terms. The axis totals do not move.
     */
    method RecordStage2Answer(selected: nat, score: Option<real>)
      requires Valid() && stage == Two
      modifies this
      ensures Valid()
      ensures answers == old(answers)[index := Answer(selected, score, None)]
      ensures stage2 == Stage2Totals(answers, QuestionsFor(questionSets, category))
      ensures stage1 == old(stage1)
      ensures stage == old(stage) && index == old(index)
      ensures category == old(category) && ideology == old(ideology)
    {
      Stage1IgnoresStage2(answers, index, Answer(selected, score, None));
      answers := answers[index := Answer(selected, score, None)];
      UpdateStage2Scores();
    }

    /**
     * `nextOrSubmit`. Without an answer to the current question nothing
     * changes. Otherwise step forward; after question 14 fix the category
     * from the axis totals and enter stage 2 at index 15; after question 19
     * retotal the terms and fix the ideology. With an empty catalog
     * `determineCategory` throws before anything is assigned.
     */
    method NextOrSubmit()
      requires Valid()
      modifies this
      ensures Valid()
      ensures answers == old(answers) && stage1 == old(stage1)
      ensures old(index) !in old(answers) ==>
        stage == old(stage) && index == old(index) && category == old(category) &&
        stage2 == old(stage2) && ideology == old(ideology)
      ensures old(index) in old(answers) && old(stage) == One && old(index) < Stage1Questions - 1 ==>
        stage == One && index == old(index) + 1 && category == old(category) &&
        stage2 == old(stage2) && ideology == old(ideology)
      ensures old(index) in old(answers) && old(stage) == One && old(index) == Stage1Questions - 1 ==>
        stage2 == old(stage2) && ideology == old(ideology) &&
        if |categories| == 0 then
          stage == One && index == old(index) && category == old(category)
        else
          stage == Two && index == Stage1Questions && category.Some? &&
          exists w: nat :: IsTop(AllMatches(categories, stage1), w) && category.value == categories[w].name
      ensures old(index) in old(answers) && old(stage) == Two && old(index) < TotalQuestions - 1 ==>
        stage == Two && index == old(index) + 1 && category == old(category) &&
        stage2 == old(stage2) && ideology == old(ideology)
      ensures old(index) in old(answers) && old(stage) == Two && old(index) == TotalQuestions - 1 ==>
        stage == Two && index == old(index) && category == old(category) &&
        stage2 == Stage2Totals(answers, QuestionsFor(questionSets, category)) &&
        ideology == Some(IdeologyOf(stage2))
    {
      if index !in answers {
        return;
      }
      if stage == One {
        if index < Stage1Questions - 1 {
          index := index + 1;
        } else {
          var c := DetermineCategory(categories, stage1);
          if c.Some? {
            category := c;
            stage := Two;
            index := Stage1Questions;
          }
        }
      } else {
        if index < TotalQuestions - 1 {
          index := index + 1;
        } else {
          UpdateStage2Scores();
          var r := DetermineIdeology(stage2);
          ideology := Some(r);
        }
      }
    }

    /** `prevQuestion`, with the stage-2 to stage-1 step taken at index 15. */
    method PrevQuestion()
      requires Valid()
      modifies this`stage, this`index
      ensures Valid()
      ensures (stage, index) == Prev(old(stage), old(index))
    {
      if stage == Two && index == Stage1Questions {
        stage := One;
        index := Stage1Questions - 1;
      } else if index > 0 {
        index := index - 1;
      }
    }

    /**
     * `restartSurvey`: back to the first question with no answers, zero
     * totals and no category. The term map and the ideology are not reset.
     */
    method RestartSurvey()
      requires Valid()
      modifies this
      ensures Valid()
      ensures stage == One && index == 0 && answers == map[]
      ensures stage1 == Point(0.0, 0.0, 0.0) && category == None
      ensures stage2 == old(stage2) && ideology == old(ideology)
    {
      stage := One;
      index := 0;
      answers := map[];
      stage1 := Point(0.0, 0.0, 0.0);
      category := None;
      AxisSumEmpty(Economic, Stage1Questions);
      AxisSumEmpty(Culture, Stage1Questions);
      AxisSumEmpty(Authority, Stage1Questions);
    }
  }
}
