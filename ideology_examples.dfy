/**
 * A worked example: the score vector (5, 5, 5) on the full catalog, one
 * group of entries at a time.
 */
module IdeologyExamples {
  import opened Geometry
  import opened IdeologyMap

  lemma NoStatistBoxHoldsFive(p: Point)
    requires p == Point(5.0, 5.0, 5.0)
    ensures forall i :: 0 <= i < |Statist| ==> !Contains(Statist[i].box, p)
  {
  }

  lemma NoSocialistBoxHoldsFive(p: Point)
    requires p == Point(5.0, 5.0, 5.0)
    ensures forall i :: 0 <= i < |Socialist| ==> !Contains(Socialist[i].box, p)
  {
  }

  lemma NoAnarchistBoxHoldsFive(p: Point)
    requires p == Point(5.0, 5.0, 5.0)
    ensures forall i :: 0 <= i < |Anarchist| ==> !Contains(Anarchist[i].box, p)
  {
  }

  lemma NoCommunistSchoolsBoxHoldsFive(p: Point)
    requires p == Point(5.0, 5.0, 5.0)
    ensures forall i :: 0 <= i < |CommunistSchools| ==> !Contains(CommunistSchools[i].box, p)
  {
  }

  /** Of the right-wing group, 保守主义, 新保守主义, 资本主义 and 麦卡锡主义 hold (5, 5, 5). */
  lemma RightWingHoldsFive(p: Point)
    requires p == Point(5.0, 5.0, 5.0)
    ensures forall i :: 0 <= i < |RightWing| ==> (Contains(RightWing[i].box, p) <==> i == 0 || i == 1 || i == 3 || i == 4)
    ensures RightWing[0].name == "保守主义"
  {
  }

  /** Of the last two entries only 民粹主义 holds (5, 5, 5), at squared distance 35. */
  lemma OthersHoldFive(p: Point)
    requires p == Point(5.0, 5.0, 5.0)
    ensures !Contains(Others[0].box, p) && Contains(Others[1].box, p) && |Others| == 2
    ensures SqDist(p, Others[1].box) == 35.0
  {
    assert Center(Others[1].box) == Point(0.0, 2.0, 4.0);
    assert Sq(5.0) == 25.0 && Sq(3.0) == 9.0 && Sq(1.0) == 1.0;
  }

  /** Squared centre distances of 保守主义 and 新保守主义: 2.25 and 5. */
  lemma ConservativeDistances(p: Point)
    requires p == Point(5.0, 5.0, 5.0)
    ensures SqDist(p, RightWing[0].box) == 2.25 && SqDist(p, RightWing[1].box) == 5.0
  {
    assert Center(RightWing[0].box) == Point(5.0, 5.0, 3.5);
    assert Center(RightWing[1].box) == Point(5.0, 3.0, 6.0);
    assert Sq(0.0) == 0.0 && Sq(1.5) == 2.25 && Sq(2.0) == 4.0 && Sq(-1.0) == 1.0;
  }

  /** Squared centre distances of 资本主义 and 麦卡锡主义: 22 and 8. */
  lemma CapitalistDistances(p: Point)
    requires p == Point(5.0, 5.0, 5.0)
    ensures SqDist(p, RightWing[3].box) == 22.0 && SqDist(p, RightWing[4].box) == 8.0
  {
    assert Center(RightWing[3].box) == Point(7.0, 2.0, 2.0);
    assert Center(RightWing[4].box) == Point(5.0, 7.0, 7.0);
    assert Sq(0.0) == 0.0 && Sq(-2.0) == 4.0 && Sq(3.0) == 9.0 && Sq(-2.0) == 4.0;
  }

  /** Where each group sits in the catalog. */
  lemma GroupOffsets()
    ensures |IdeologyRanges| == 44
    ensures forall w :: 0 <= w < 9 ==> IdeologyRanges[w] == RightWing[w]
    ensures forall w :: 9 <= w < 17 ==> IdeologyRanges[w] == Statist[w - 9]
    ensures forall w :: 17 <= w < 26 ==> IdeologyRanges[w] == Socialist[w - 17]
    ensures forall w :: 26 <= w < 34 ==> IdeologyRanges[w] == Anarchist[w - 26]
    ensures forall w :: 34 <= w < 42 ==> IdeologyRanges[w] == CommunistSchools[w - 34]
    ensures forall w :: 42 <= w < 44 ==> IdeologyRanges[w] == Others[w - 42]
  {
  }

  /**
   * (5, 5, 5) lies in exactly 保守主义, 新保守主义, 资本主义, 麦卡锡主义 and
   * 民粹主义, and 保守主义 has the nearest centre, so it is the answer.
   */
  lemma {:induction false} ConservatismExample(p: Point)
    requires p == Point(5.0, 5.0, 5.0)
    ensures forall w :: 0 <= w < |IdeologyRanges| ==>
      (Contains(IdeologyRanges[w].box, p) <==> w == 0 || w == 1 || w == 3 || w == 4 || w == 43)
    ensures Classification(IdeologyRanges, p) == "保守主义"
  {
    GroupOffsets();
    forall w | 0 <= w < |IdeologyRanges|
      ensures Contains(IdeologyRanges[w].box, p) <==> w == 0 || w == 1 || w == 3 || w == 4 || w == 43
    {
      if w < 9 {
        RightWingHoldsFive(p);
      } else if w < 17 {
        NoStatistBoxHoldsFive(p);
      } else if w < 26 {
        NoSocialistBoxHoldsFive(p);
      } else if w < 34 {
        NoAnarchistBoxHoldsFive(p);
      } else if w < 42 {
        NoCommunistSchoolsBoxHoldsFive(p);
      } else {
        OthersHoldFive(p);
      }
    }
    RightWingHoldsFive(p);
    OthersHoldFive(p);
    ConservativeDistances(p);
    CapitalistDistances(p);
    assert ClampScores(p) == p;
    var w := ClassificationSpec(IdeologyRanges, p);
    assert Candidate(IdeologyRanges, p, 0, true);
    assert w == 0;
  }
}
