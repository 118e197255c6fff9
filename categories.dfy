/** The containment helpers of the category visualiser: box centres, closed
    containment and the first category holding a point. The category dict is
    a sequence of named boxes in its iteration order. */
module Categories {
  import opened Geometry
  import opened Optional

  /** `get_category_centers` as a value: later entries overwrite earlier ones of the same name. */
  function CenterMap(cats: seq<NamedBox>): map<string, Point> {
    if |cats| == 0 then map[]
    else CenterMap(cats[..|cats| - 1])[cats[|cats| - 1].name := Center(cats[|cats| - 1].box)]
  }

  /** The dict-filling loop of `get_category_centers`. */
  method GetCategoryCenters(cats: seq<NamedBox>) returns (centers: map<string, Point>)
    ensures centers == CenterMap(cats)
  {
    centers := map[];
    for k := 0 to |cats|
      invariant centers == CenterMap(cats[..k])
    {
      assert cats[..k + 1][..k] == cats[..k];
      centers := centers[cats[k].name := Center(cats[k].box)];
    }
    assert cats[..|cats|] == cats;
  }

  /** Every category name, and nothing else, is a key. */
  lemma {:induction false} CenterMapKeys(cats: seq<NamedBox>, name: string)
    ensures name in CenterMap(cats) <==> exists k :: 0 <= k < |cats| && cats[k].name == name
  {
    if |cats| > 0 {
      var init := cats[..|cats| - 1];
      CenterMapKeys(init, name);
      if exists k :: 0 <= k < |cats| && cats[k].name == name {
        var k :| 0 <= k < |cats| && cats[k].name == name;
        if k < |init| {
          assert init[k].name == name;
        }
      }
      if exists k :: 0 <= k < |init| && init[k].name == name {
        var k :| 0 <= k < |init| && init[k].name == name;
        assert cats[k].name == name;
      }
    }
  }

  /** A name maps to the centre of the last entry carrying it. */
  lemma {:induction false} CenterMapValue(cats: seq<NamedBox>, k: nat)
    requires k < |cats|
    requires forall j :: k < j < |cats| ==> cats[j].name != cats[k].name
    ensures cats[k].name in CenterMap(cats) && CenterMap(cats)[cats[k].name] == Center(cats[k].box)
  {
    if k < |cats| - 1 {
      var init := cats[..|cats| - 1];
      assert init[k] == cats[k];
      CenterMapValue(init, k);
    }
  }

  /** `is_point_in_category`: each score lies in its axis's closed interval. */
  function IsPointInCategory(economic: real, culture: real, authority: real, category: Box): (r: bool)
    ensures r <==>
      category.econ.lo <= economic <= category.econ.hi &&
      category.cult.lo <= culture <= category.cult.hi &&
      category.auth.lo <= authority <= category.auth.hi
  {
    Contains(category, Point(economic, culture, authority))
  }

  /** A well-formed category holds its own centre. */
  lemma CenterInCategory(cats: seq<NamedBox>, k: nat)
    requires k < |cats| && WellFormed(cats[k].box)
    requires forall j :: k < j < |cats| ==> cats[j].name != cats[k].name
    ensures cats[k].name in CenterMap(cats)
    ensures var c := CenterMap(cats)[cats[k].name];
      IsPointInCategory(c.econ, c.cult, c.auth, cats[k].box)
  {
    CenterMapValue(cats, k);
    CenterContained(cats[k].box);
  }

  /** Entry `k` holds `p` and no earlier entry does. */
  predicate FirstHolding(cats: seq<NamedBox>, p: Point, k: nat) {
    k < |cats| && Contains(cats[k].box, p) && forall j :: 0 <= j < k ==> !Contains(cats[j].box, p)
  }

  /** Index of the first category holding the point, if any. */
  function FirstContaining(cats: seq<NamedBox>, p: Point): (r: Option<nat>)
    ensures r.Some? ==> r.value < |cats| && Contains(cats[r.value].box, p)
    ensures r.Some? ==> forall j :: 0 <= j < r.value ==> !Contains(cats[j].box, p)
    ensures r.None? <==> forall j :: 0 <= j < |cats| ==> !Contains(cats[j].box, p)
  {
    if |cats| == 0 then None
    else if Contains(cats[0].box, p) then Some(0)
    else match FirstContaining(cats[1..], p)
      case Some(k) => Some(k + 1)
      case None => None
  }

  /**
   * `get_ideology_category`: scan in dict order and return the first
   * category holding the point, or nothing (`(None, None)`).
   */
  method GetIdeologyCategory(economic: real, culture: real, authority: real, cats: seq<NamedBox>)
    returns (found: Option<NamedBox>)
    ensures found.None? <==> forall j :: 0 <= j < |cats| ==> !IsPointInCategory(economic, culture, authority, cats[j].box)
    ensures found.Some? ==>
      exists k: nat :: FirstHolding(cats, Point(economic, culture, authority), k) && found.value == cats[k]
  {
    for k := 0 to |cats|
      invariant forall j :: 0 <= j < k ==> !IsPointInCategory(economic, culture, authority, cats[j].box)
    {
      if IsPointInCategory(economic, culture, authority, cats[k].box) {
        assert FirstHolding(cats, Point(economic, culture, authority), k);
        return Some(cats[k]);
      }
    }
    return None;
  }

  /** The search agrees with the first-match function. */
  lemma SearchAgreesWithFirst(economic: real, culture: real, authority: real, cats: seq<NamedBox>, k: nat)
    requires k < |cats| && IsPointInCategory(economic, culture, authority, cats[k].box)
    requires forall j :: 0 <= j < k ==> !IsPointInCategory(economic, culture, authority, cats[j].box)
    ensures FirstContaining(cats, Point(economic, culture, authority)) == Some(k)
  {
    var p := Point(economic, culture, authority);
    assert Contains(cats[k].box, p);
    var r := FirstContaining(cats, p);
    assert r.Some?;
    assert !(r.value < k) && !(k < r.value);
  }
}
