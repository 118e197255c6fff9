/** The range-based classifier of ideology_map.js: a fixed, ordered catalog
    of named boxes, and `classifyIdeology`, which clamps a score vector to
    [-10, 10], keeps the boxes that contain it, and picks the one with the
    nearest centre (among the containing boxes if there are any, among all
    boxes otherwise). */
module IdeologyMap {
  import opened Geometry
  import opened Extremes

  function R(lo: int, hi: int): Range {
    Range(lo as real, hi as real)
  }

  function E(name: string, econ: Range, cult: Range, auth: Range): NamedBox {
    NamedBox(name, Box(econ, cult, auth))
  }

  /** 保守与右派: conservative and right-wing entries. */
  const RightWing: seq<NamedBox> := [
    E("保守主义", R(2, 8), R(2, 8), R(0, 7)),
    E("新保守主义", R(2, 8), R(0, 6), R(3, 9)),
    E("反动主义", R(4, 10), R(6, 10), R(6, 10)),
    E("资本主义", R(4, 10), R(-2, 6), R(-2, 6)),
    E("麦卡锡主义", R(2, 8), R(4, 10), R(4, 10)),
    E("新自由主义", R(3, 10), R(-2, 4), R(-2, 3)),
    E("自由主义", R(0, 6), R(-6, 0), R(-6, -1)),
    E("凯恩斯主义", R(-2, 3), R(-2, 4), R(-1, 4)),
    E("第三条道路", R(-2, 4), R(-2, 4), R(-2, 4))
  ]

  /** 国家主义与极右威权: statist and far-right authoritarian entries. */
  const Statist: seq<NamedBox> := [
    E("国家主义", R(0, 8), R(0, 8), R(6, 10)),
    E("法西斯主义", R(0, 6), R(6, 10), R(8, 10)),
    E("新法西斯主义", R(0, 6), R(6, 10), R(8, 10)),
    E("纳粹主义", R(0, 6), R(8, 10), R(9, 10)),
    E("军国主义", R(0, 6), R(4, 10), R(8, 10)),
    E("帝国主义", R(0, 8), R(2, 10), R(8, 10)),
    E("威权主义", R(-4, 8), R(-2, 8), R(7, 10)),
    E("集权主义", R(-6, 6), R(-4, 8), R(8, 10))
  ]

  /** 社会主义与共产主义谱系: the socialist and communist family. */
  const Socialist: seq<NamedBox> := [
    E("原教旨马克思主义", R(-10, -7), R(-6, 2), R(2, 8)),
    E("马克思主义", R(-10, -6), R(-6, 2), R(2, 8)),
    E("社会主义", R(-8, -2), R(-2, 4), R(0, 7)),
    E("共产主义", R(-10, -6), R(-6, 2), R(3, 10)),
    E("社会民主主义", R(-4, 1), R(-2, 4), R(-2, 3)),
    E("民主社会主义", R(-8, -2), R(-4, 4), R(-2, 4)),
    E("市场社会主义", R(-6, 0), R(-2, 4), R(-1, 5)),
    E("中国特色社会主义", R(-6, 0), R(-2, 6), R(4, 9)),
    E("新左派", R(-8, -2), R(-4, 4), R(-2, 5))
  ]

  /** 无政府主义与工团: anarchist and syndicalist entries. */
  const Anarchist: seq<NamedBox> := [
    E("无政府主义（安那其）", R(-8, 2), R(-8, 2), R(-10, -6)),
    E("无政府资本主义（安那其资本主义）", R(3, 10), R(-4, 3), R(-10, -6)),
    E("无政府共产主义（安那其共产主义）", R(-10, -6), R(-8, 2), R(-10, -6)),
    E("无政府社会主义（安那其社会主义）", R(-10, -6), R(-6, 2), R(-10, -6)),
    E("无政府个人主义（安那其个人主义）", R(0, 8), R(-8, 2), R(-10, -6)),
    E("互助主义", R(-8, -2), R(-6, 2), R(-10, -6)),
    E("纲领无政府主义", R(-10, -4), R(-8, 0), R(-10, -6)),
    E("工团主义", R(-10, -6), R(-6, 2), R(-6, -1))
  ]

  /** 共产主义流派: schools of communism. */
  const CommunistSchools: seq<NamedBox> := [
    E("列宁主义", R(-10, -6), R(-6, 2), R(6, 10)),
    E("马克思列宁主义", R(-10, -6), R(-6, 2), R(7, 10)),
    E("斯大林主义", R(-10, -6), R(-4, 4), R(8, 10)),
    E("毛泽东主义", R(-10, -6), R(-4, 4), R(7, 10)),
    E("托洛茨基主义", R(-10, -6), R(-6, 2), R(3, 7)),
    E("卢森堡主义", R(-10, -6), R(-6, 2), R(0, 5)),
    E("欧洲马克思主义", R(-10, -6), R(-6, 2), R(0, 4)),
    E("波萨达斯主义", R(-10, -6), R(-6, 2), R(3, 8))
  ]

  /** 其他: the remaining two entries. */
  const Others: seq<NamedBox> := [
    E("民主主义", R(-2, 2), R(-2, 2), R(-2, 2)),
    E("民粹主义", R(-6, 6), R(-4, 8), R(0, 8))
  ]

  /** `IDEOLOGY_RANGES`: the six groups in declaration order (the order breaks ties). */
  const IdeologyRanges: seq<NamedBox> :=
    RightWing + Statist + Socialist + Anarchist + CommunistSchools + Others

  /** `clamp(v, min, max)` = `Math.max(min, Math.min(max, v))`. */
  function Clamp(v: real, lo: real, hi: real): (r: real)
    requires lo <= hi
    ensures lo <= r <= hi
    ensures lo <= v <= hi ==> r == v
    ensures v >= hi ==> r == hi
    ensures v <= lo ==> r == lo
  {
    var m := if hi < v then hi else v;
    if lo > m then lo else m
  }

  function ClampScores(s: Point): (c: Point)
    ensures -10.0 <= c.econ <= 10.0 && -10.0 <= c.cult <= 10.0 && -10.0 <= c.auth <= 10.0
  {
    Point(Clamp(s.econ, -10.0, 10.0), Clamp(s.cult, -10.0, 10.0), Clamp(s.auth, -10.0, 10.0))
  }

  /** The `filter` step: the catalog entries containing `p`, in catalog order. */
  function Matches(c: seq<NamedBox>, p: Point): (ms: seq<NamedBox>)
    ensures |ms| <= |c|
  {
    if c == [] then []
    else Matches(c[..|c| - 1], p) + (if Contains(c[|c| - 1].box, p) then [c[|c| - 1]] else [])
  }

  /** The catalog positions of `Matches(c, p)`. */
  ghost function MatchPositions(c: seq<NamedBox>, p: Point): seq<nat> {
    if c == [] then []
    else MatchPositions(c[..|c| - 1], p) + (if Contains(c[|c| - 1].box, p) then [|c| - 1] else [])
  }

  /** The filter keeps exactly the containing entries, in increasing catalog order. */
  lemma {:induction false} MatchPositionsSpec(c: seq<NamedBox>, p: Point)
    ensures |MatchPositions(c, p)| == |Matches(c, p)|
    ensures forall j :: 0 <= j < |MatchPositions(c, p)| ==>
      MatchPositions(c, p)[j] < |c| && Matches(c, p)[j] == c[MatchPositions(c, p)[j]]
    ensures forall j :: 0 <= j < |MatchPositions(c, p)| ==> Contains(c[MatchPositions(c, p)[j]].box, p)
    ensures forall j, l :: 0 <= j < l < |MatchPositions(c, p)| ==> MatchPositions(c, p)[j] < MatchPositions(c, p)[l]
    ensures forall k :: 0 <= k < |c| && Contains(c[k].box, p) ==> k in MatchPositions(c, p)
  {
    if c != [] {
      var n := |c| - 1;
      MatchPositionsSpec(c[..n], p);
      assert forall k :: 0 <= k < n ==> c[..n][k] == c[k];
    }
  }

  /** Squared distances from `p` to each entry's centre (`distanceToBoxCenter`, squared). */
  function Distances(c: seq<NamedBox>, p: Point): (ds: seq<real>)
    ensures |ds| == |c|
    ensures forall k :: 0 <= k < |c| ==> ds[k] == SqDist(p, c[k].box)
  {
    seq(|c|, k requires 0 <= k < |c| => SqDist(p, c[k].box))
  }

  /** What `classifyIdeology` returns for `scores` on catalog `c`. */
  function Classification(c: seq<NamedBox>, scores: Point): string
    requires |c| > 0
  {
    var p := ClampScores(scores);
    var ms := Matches(c, p);
    if |ms| == 1 then ms[0].name
    else if |ms| > 1 then ms[FirstMin(Distances(ms, p))].name
    else c[FirstMin(Distances(c, p))].name
  }

  /** Position `k` is a candidate of the scan: any entry, or only containing ones. */
  ghost predicate Candidate(c: seq<NamedBox>, p: Point, k: int, onlyContaining: bool) {
    0 <= k < |c| && (onlyContaining ==> Contains(c[k].box, p))
  }

  /** `w` is the first candidate whose centre is nearest to `p`. */
  ghost predicate NearestCandidate(c: seq<NamedBox>, p: Point, w: nat, onlyContaining: bool) {
    Candidate(c, p, w, onlyContaining) &&
    (forall k :: Candidate(c, p, k, onlyContaining) ==> SqDist(p, c[w].box) <= SqDist(p, c[k].box)) &&
    (forall k :: Candidate(c, p, k, onlyContaining) && k < w ==> SqDist(p, c[k].box) > SqDist(p, c[w].box))
  }

  /** The scan over the matches finds the first nearest containing entry of the catalog. */
  lemma {:induction false} NearestMatch(c: seq<NamedBox>, p: Point) returns (w: nat)
    requires |Matches(c, p)| > 0
    ensures w < |c| && c[w] == Matches(c, p)[FirstMin(Distances(Matches(c, p), p))]
    ensures NearestCandidate(c, p, w, true)
  {
    var ms := Matches(c, p);
    var ix := MatchPositions(c, p);
    MatchPositionsSpec(c, p);
    var ds := Distances(ms, p);
    var j := FirstMin(ds);
    w := ix[j];
    forall k | Candidate(c, p, k, true)
      ensures SqDist(p, c[w].box) <= SqDist(p, c[k].box)
      ensures k < w ==> SqDist(p, c[k].box) > SqDist(p, c[w].box)
    {
      assert k in ix;
      var l :| 0 <= l < |ix| && ix[l] == k;
      assert ds[l] == SqDist(p, c[k].box);
      if k < w {
        assert l < j;
      }
    }
  }

  /** No match means no entry contains the point. */
  lemma NoMatch(c: seq<NamedBox>, p: Point)
    requires |Matches(c, p)| == 0
    ensures forall k :: !Candidate(c, p, k, true)
  {
    MatchPositionsSpec(c, p);
  }

  /** The classification, stated over catalog positions: the result is the name
      of the first entry nearest to the clamped point among the containing
      entries when there are any, and among all entries otherwise. */
  lemma {:induction false} ClassificationSpec(c: seq<NamedBox>, scores: Point) returns (w: nat)
    requires |c| > 0
    ensures w < |c| && c[w].name == Classification(c, scores)
    ensures (exists k :: Candidate(c, ClampScores(scores), k, true)) ==> NearestCandidate(c, ClampScores(scores), w, true)
    ensures (forall k :: !Candidate(c, ClampScores(scores), k, true)) ==> NearestCandidate(c, ClampScores(scores), w, false)
  {
    var p := ClampScores(scores);
    var ms := Matches(c, p);
    if |ms| == 0 {
      NoMatch(c, p);
      w := FirstMin(Distances(c, p));
    } else {
      w := NearestMatch(c, p);
      assert |ms| == 1 ==> FirstMin(Distances(ms, p)) == 0;
    }
  }

  /** With exactly one containing entry, that entry's name is returned. */
  lemma UniqueMatchWins(c: seq<NamedBox>, scores: Point, k: nat)
    requires k < |c| && Contains(c[k].box, ClampScores(scores))
    requires forall j :: 0 <= j < |c| && j != k ==> !Contains(c[j].box, ClampScores(scores))
    ensures Classification(c, scores) == c[k].name
  {
    var w := ClassificationSpec(c, scores);
    assert Candidate(c, ClampScores(scores), k, true);
  }

  /** Totality: the result is always the name of some catalog entry. */
  lemma ClassificationInCatalog(c: seq<NamedBox>, scores: Point)
    requires |c| > 0
    ensures exists k :: 0 <= k < |c| && c[k].name == Classification(c, scores)
  {
    var w := ClassificationSpec(c, scores);
  }

  /** An entry with the same box as an earlier entry, and a name of its own, is never returned. */
  lemma ShadowedEntryNeverWins(c: seq<NamedBox>, scores: Point, i: nat, j: nat)
    requires i < j < |c| && c[i].box == c[j].box
    requires forall k :: 0 <= k < |c| && k != j ==> c[k].name != c[j].name
    ensures Classification(c, scores) != c[j].name
  {
    var w := ClassificationSpec(c, scores);
  }

  /** Clamping happens first: scores beyond 10 classify like 10, below -10 like -10. */
  lemma ClampedFirst(c: seq<NamedBox>, scores: Point)
    requires |c| > 0
    ensures Classification(c, scores) == Classification(c, ClampScores(scores))
    ensures scores.econ >= 10.0 ==> Classification(c, scores) == Classification(c, scores.(econ := 10.0))
    ensures scores.cult >= 10.0 ==> Classification(c, scores) == Classification(c, scores.(cult := 10.0))
    ensures scores.auth >= 10.0 ==> Classification(c, scores) == Classification(c, scores.(auth := 10.0))
    ensures scores.econ <= -10.0 ==> Classification(c, scores) == Classification(c, scores.(econ := -10.0))
    ensures scores.cult <= -10.0 ==> Classification(c, scores) == Classification(c, scores.(cult := -10.0))
    ensures scores.auth <= -10.0 ==> Classification(c, scores) == Classification(c, scores.(auth := -10.0))
  {
    assert ClampScores(ClampScores(scores)) == ClampScores(scores);
  }

  /** `classifyIdeology` over a catalog: the filter, then the two running-best
      scans (`d < bestD`) over the matches or over the whole catalog. */
  method Classify(c: seq<NamedBox>, scores: Point) returns (name: string)
    requires |c| > 0
    ensures name == Classification(c, scores)
  {
    var p := ClampScores(scores);
    var matches := Matches(c, p);
    if |matches| == 1 {
      return matches[0].name;
    }
    if |matches| > 1 {
      name := NearestName(matches, p);
      return;
    }
    name := NearestName(c, p);
  }

  /** One running-best scan: `best` starts at the first entry and is replaced on a strictly smaller distance. */
  method NearestName(c: seq<NamedBox>, p: Point) returns (name: string)
    requires |c| > 0
    ensures name == c[FirstMin(Distances(c, p))].name
  {
    ghost var ds := Distances(c, p);
    var best := c[0];
    var bestD := SqDist(p, c[0].box);
    ghost var w := 0;
    assert ds[..1] == [ds[0]];
    var i := 1;
    while i < |c|
      invariant 1 <= i <= |c|
      invariant w == FirstMin(ds[..i])
      invariant best == c[w] && bestD == ds[w]
    {
      var d := SqDist(p, c[i].box);
      FirstMinStep(ds, i);
      if d < bestD {
        best := c[i];
        bestD := d;
        w := i;
      }
      i := i + 1;
    }
    assert ds[..|c|] == ds;
    name := best.name;
  }

  /** `classifyIdeology` itself, on the built-in catalog. */
  method ClassifyIdeology(scores: Point) returns (name: string)
    ensures name == Classification(IdeologyRanges, scores)
  {
    name := Classify(IdeologyRanges, scores);
  }
}
