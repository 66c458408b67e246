/** The two chart callbacks of the SpaceX launch records dashboard, each
    reduced to the data it hands to the charting library, and the default
    payload range of the slider. */
module Dashboard {
  import opened Frames
  import opened ValueCounts

  /** The dropdown value that stands for "all launch sites". */
  const AllSites: string := "ALL"

  const SuccessColour: string := "#42f56c"
  const FailureColour: string := "#f54242"

  /** The fixed `color_discrete_map` of the per-site pie: class 1 green, class 0 red. */
  const ClassColours: map<int, string> := map[1 := SuccessColour, 0 := FailureColour]

  /** What the pie callback hands to the chart. With all sites selected, the
      successful rows aggregated by launch site; with one site selected, the
      count of each outcome class at that site and the class colours. */
  datatype PieChart =
    | SuccessesBySite(bySite: map<string, nat>)
    | OutcomesAtSite(byClass: map<int, nat>, colours: map<int, string>)

  /** One point of the scatter chart: payload on the x axis, outcome class on
      the y axis, booster version category as the colour. */
  datatype Point = Point(payload: int, cls: int, booster: string)

  /** The 'Launch Site' column of some rows. */
  function Sites(rows: Table): (s: seq<string>)
    ensures |s| == |rows|
    ensures forall i :: 0 <= i < |rows| ==> s[i] == rows[i].site
  {
    seq(|rows|, i requires 0 <= i < |rows| => rows[i].site)
  }

  /** The 'class' column of some rows. */
  function Classes(rows: Table): (s: seq<int>)
    ensures |s| == |rows|
    ensures forall i :: 0 <= i < |rows| ==> s[i] == rows[i].cls
  {
    seq(|rows|, i requires 0 <= i < |rows| => rows[i].cls)
  }

  // ---------------------------------------------------------------------------
  // Pie chart: get_pie_chart

  /** `get_pie_chart(entered_site)`. */
  function GetPieChart(t: Table, site: string): (fig: PieChart)
    ensures fig.SuccessesBySite? <==> site == AllSites
    ensures fig.OutcomesAtSite? ==>
      fig.colours.Keys == {0, 1} && fig.colours[1] == SuccessColour && fig.colours[0] == FailureColour
  {
    if site == AllSites then
      SuccessesBySite(Tally(Sites(Select(t, ClassIs(1)))))
    else
      OutcomesAtSite(Tally(Classes(Select(t, SiteIs(site)))), ClassColours)
  }

  /** How often a site occurs in the 'Launch Site' column is the number of
      rows that the mask `site == s` keeps. */
  lemma {:induction false} SiteOccurrences(rows: Table, s: string)
    ensures multiset(Sites(rows))[s] == |Select(rows, SiteIs(s))|
  {
    if rows != [] {
      SiteOccurrences(rows[1..], s);
      assert Sites(rows) == [rows[0].site] + Sites(rows[1..]);
    }
  }

  /** How often a class occurs in the 'class' column is the number of rows
      that the mask `class == c` keeps. */
  lemma {:induction false} ClassOccurrences(rows: Table, c: int)
    ensures multiset(Classes(rows))[c] == |Select(rows, ClassIs(c))|
  {
    if rows != [] {
      ClassOccurrences(rows[1..], c);
      assert Classes(rows) == [rows[0].cls] + Classes(rows[1..]);
    }
  }

  /** With all sites selected there is a slice for a site exactly when that
      site has a successful launch, and its size is the number of successful
      launches at that site. */
  lemma PieAllSitesSlices(t: Table, s: string)
    ensures GetPieChart(t, AllSites).SuccessesBySite?
    ensures s in GetPieChart(t, AllSites).bySite <==> exists r :: r in t && r.cls == 1 && r.site == s
    ensures s in GetPieChart(t, AllSites).bySite ==>
      GetPieChart(t, AllSites).bySite[s] == |Select(t, Both(ClassIs(1), SiteIs(s)))|
  {
    var ok := Select(t, ClassIs(1));
    var slices := Tally(Sites(ok));
    assert GetPieChart(t, AllSites).bySite == slices;
    if s in slices {
      var i :| 0 <= i < |Sites(ok)| && Sites(ok)[i] == s;
      assert ok[i] in ok;
      SelectMembership(t, ClassIs(1), ok[i]);
    }
    if exists r :: r in t && r.cls == 1 && r.site == s {
      var r :| r in t && r.cls == 1 && r.site == s;
      SelectMembership(t, ClassIs(1), r);
      var i :| 0 <= i < |ok| && ok[i] == r;
      assert Sites(ok)[i] == s;
    }
    SiteOccurrences(ok, s);
    SelectSelect(t, ClassIs(1), SiteIs(s));
  }

  /** With all sites selected the slice sizes add up to the number of
      successful launches. */
  lemma PieAllSitesTotal(t: Table)
    ensures MapSum(GetPieChart(t, AllSites).bySite) == |Select(t, ClassIs(1))|
  {
    TallyTotal(Sites(Select(t, ClassIs(1))));
  }

  /** With all sites selected a failed launch never changes the chart: adding
      one anywhere in the table leaves every slice as it was. */
  lemma PieAllSitesIgnoresFailures(t: Table, i: nat, failure: Row)
    requires i <= |t|
    requires failure.cls != 1
    ensures GetPieChart(t[..i] + [failure] + t[i..], AllSites) == GetPieChart(t, AllSites)
  {
    SelectSkipsRejected(t[..i], failure, t[i..], ClassIs(1));
    assert t[..i] + t[i..] == t;
  }

  /** With one site selected there is a slice for each outcome class that
      occurs at that site and for no other class; each slice is the number of
      that site's launches with that outcome, and is never empty. */
  lemma PieSiteSlices(t: Table, site: string, c: int)
    requires site != AllSites
    ensures GetPieChart(t, site).OutcomesAtSite?
    ensures c in GetPieChart(t, site).byClass <==> exists r :: r in t && r.site == site && r.cls == c
    ensures c in GetPieChart(t, site).byClass ==>
      GetPieChart(t, site).byClass[c] == |Select(t, Both(SiteIs(site), ClassIs(c)))| > 0
  {
    var here := Select(t, SiteIs(site));
    var slices := Tally(Classes(here));
    assert GetPieChart(t, site).byClass == slices;
    if c in slices {
      var i :| 0 <= i < |Classes(here)| && Classes(here)[i] == c;
      assert here[i] in here;
      SelectMembership(t, SiteIs(site), here[i]);
    }
    if exists r :: r in t && r.site == site && r.cls == c {
      var r :| r in t && r.site == site && r.cls == c;
      SelectMembership(t, SiteIs(site), r);
      var i :| 0 <= i < |here| && here[i] == r;
      assert Classes(here)[i] == c;
    }
    ClassOccurrences(here, c);
    SelectSelect(t, SiteIs(site), ClassIs(c));
  }

  /** With one site selected the slice sizes add up to the number of launches
      from that site. */
  lemma PieSiteTotal(t: Table, site: string)
    requires site != AllSites
    ensures MapSum(GetPieChart(t, site).byClass) == |Select(t, SiteIs(site))|
  {
    TallyTotal(Classes(Select(t, SiteIs(site))));
  }

  /** When every outcome class is 0 or 1, a site's pie has at most two slices. */
  lemma PieSiteAtMostTwoSlices(t: Table, site: string)
    requires site != AllSites
    requires forall r :: r in t ==> r.cls == 0 || r.cls == 1
    ensures |GetPieChart(t, site).byClass| <= 2
  {
    var here := Select(t, SiteIs(site));
    forall k | k in Classes(here) ensures k in {0, 1} {
      var i :| 0 <= i < |here| && Classes(here)[i] == k;
      assert here[i] in here;
      SelectMembership(t, SiteIs(site), here[i]);
    }
    TallySizeBound(Classes(here), {0, 1});
  }

  /** A site with no launches in the table gets a pie with no slices. */
  lemma PieAbsentSiteIsEmpty(t: Table, site: string)
    requires site != AllSites
    requires forall r :: r in t ==> r.site != site
    ensures GetPieChart(t, site).byClass == map[]
  {
    var here := Select(t, SiteIs(site));
    if here != [] {
      SelectMembership(t, SiteIs(site), here[0]);
    }
  }

  // ---------------------------------------------------------------------------
  // Scatter chart: get_scatter_chart

  /** Whether the scatter chart shows a row: its payload lies in the slider
      range, ends included, and it is from the selected site unless all sites
      are selected. */
  predicate Shown(r: Row, site: string, low: int, high: int) {
    low <= r.payload <= high && (site == AllSites || r.site == site)
  }

  /** The rows `get_scatter_chart(entered_site, [low, high])` plots. */
  function ScatterRows(t: Table, site: string, low: int, high: int): (s: Table)
    ensures |s| <= |t|
    ensures forall i :: 0 <= i < |s| ==> Shown(s[i], site, low, high)
  {
    var range := Both(PayloadAtLeast(low), PayloadAtMost(high));
    var inRange := Select(t, range);
    assert forall r :: Holds(range, r) <==> low <= r.payload <= high;
    if site == AllSites then inRange
    else
      assert Select(inRange, SiteIs(site)) == Select(t, Both(range, SiteIs(site))) by {
        SelectSelect(t, range, SiteIs(site));
      }
      Select(inRange, SiteIs(site))
  }

  /** The point px.scatter draws for a row: x = 'Payload Mass (kg)',
      y = 'class', color = 'Booster Version Category'. */
  function PointOf(r: Row): Point {
    Point(r.payload, r.cls, r.booster)
  }

  /** The points `get_scatter_chart(entered_site, [low, high])` plots. */
  function GetScatterChart(t: Table, site: string, low: int, high: int): (fig: seq<Point>)
    ensures |fig| == |ScatterRows(t, site, low, high)|
    ensures forall i :: 0 <= i < |fig| ==> fig[i] == PointOf(ScatterRows(t, site, low, high)[i])
  {
    var rows := ScatterRows(t, site, low, high);
    seq(|rows|, i requires 0 <= i < |rows| => PointOf(rows[i]))
  }

  /** The scatter selection is exact: each row of the table that is in range
      and from the selected site is plotted as often as it occurs, and no
      other row is. */
  lemma ScatterRowsExact(t: Table, site: string, low: int, high: int, r: Row)
    ensures multiset(ScatterRows(t, site, low, high))[r]
         == if Shown(r, site, low, high) then multiset(t)[r] else 0
  {
    var range := Both(PayloadAtLeast(low), PayloadAtMost(high));
    SelectCounts(t, range, r);
    if site != AllSites {
      SelectSelect(t, range, SiteIs(site));
      SelectCounts(t, Both(range, SiteIs(site)), r);
    }
  }

  /** The scatter selection keeps rows unchanged and in table order. */
  lemma ScatterRowsInOrder(t: Table, site: string, low: int, high: int)
    ensures IsSubsequence(ScatterRows(t, site, low, high), t)
  {
    var range := Both(PayloadAtLeast(low), PayloadAtMost(high));
    if site == AllSites {
      SelectIsSubsequence(t, range);
    } else {
      SelectSelect(t, range, SiteIs(site));
      SelectIsSubsequence(t, Both(range, SiteIs(site)));
    }
  }

  /** Every plotted point is the point of a launch in the table that the
      selection shows. */
  lemma ScatterPointsFromTable(t: Table, site: string, low: int, high: int, i: int)
    requires 0 <= i < |GetScatterChart(t, site, low, high)|
    ensures exists r :: r in t && Shown(r, site, low, high) && PointOf(r) == GetScatterChart(t, site, low, high)[i]
  {
    var rows := ScatterRows(t, site, low, high);
    var r := rows[i];
    assert r in rows;
    ScatterRowsExact(t, site, low, high, r);
    assert r in t;
  }

  /** Every launch in the table that is in range and from the selected site
      is plotted as its (payload, class, booster) point. */
  lemma ScatterPointsComplete(t: Table, site: string, low: int, high: int, r: Row)
    requires r in t && Shown(r, site, low, high)
    ensures PointOf(r) in GetScatterChart(t, site, low, high)
  {
    var rows := ScatterRows(t, site, low, high);
    ScatterRowsExact(t, site, low, high, r);
    assert r in multiset(t);
    assert r in rows;
    var i :| 0 <= i < |rows| && rows[i] == r;
    assert GetScatterChart(t, site, low, high)[i] == PointOf(r);
  }

  /** An inverted range (low above high) plots nothing, whatever the site. */
  lemma ScatterInvertedRangeIsEmpty(t: Table, site: string, low: int, high: int)
    requires low > high
    ensures ScatterRows(t, site, low, high) == []
    ensures GetScatterChart(t, site, low, high) == []
  {
    SelectNothing(t, Both(PayloadAtLeast(low), PayloadAtMost(high)));
  }

  // ---------------------------------------------------------------------------
  // Default slider range: min_payload and max_payload

  /** `[min_payload, max_payload]`, the initial value of the payload slider;
      both are NaN (here `None`) for an empty table. */
  function DefaultPayloadRange(t: Table): (range: Option<(int, int)>)
    ensures range.Some? <==> t != []
    ensures range.Some? ==> range.value.0 <= range.value.1
    ensures range.Some? ==> forall r :: r in t ==> range.value.0 <= r.payload <= range.value.1
    ensures range.Some? ==>
      (exists r :: r in t && r.payload == range.value.0) && (exists r :: r in t && r.payload == range.value.1)
  {
    match (MinPayload(t), MaxPayload(t))
    case (Some(low), Some(high)) => Some((low, high))
    case _ => None
  }

  /** On start-up the scatter chart shows every launch: all sites and the
      default range keep the whole table. */
  lemma DefaultScatterShowsEverything(t: Table)
    requires t != []
    ensures ScatterRows(t, AllSites, DefaultPayloadRange(t).value.0, DefaultPayloadRange(t).value.1) == t
  {
    var (low, high) := DefaultPayloadRange(t).value;
    SelectEverything(t, Both(PayloadAtLeast(low), PayloadAtMost(high)));
  }

  // ---------------------------------------------------------------------------
  // A worked example

  /** Three launches: a success and a failure from site A, a success from site B. */
  function ThreeLaunches(): Table {
    [Row("A", 500, 1, "v1"), Row("A", 1500, 0, "v1"), Row("B", 2000, 1, "v2")]
  }

  /** All sites: one slice per site, each holding its one success. */
  lemma ThreeLaunchesPieAllSites()
    ensures GetPieChart(ThreeLaunches(), AllSites) == SuccessesBySite(map["A" := 1, "B" := 1])
  {
    var t := ThreeLaunches();
    assert t[1..] == [t[1], t[2]] && t[1..][1..] == [t[2]] && t[1..][1..][1..] == [];
    assert Select(t, ClassIs(1)) == [t[0], t[2]];
    var sites := Sites([t[0], t[2]]);
    assert sites == ["A", "B"];
    assert sites[1..] == ["B"] && sites[1..][1..] == [];
    assert Tally(sites[1..]) == map["B" := 1];
  }

  /** Site A: one success and one failure. */
  lemma ThreeLaunchesPieSiteA()
    ensures GetPieChart(ThreeLaunches(), "A").byClass == map[1 := 1, 0 := 1]
  {
    var t := ThreeLaunches();
    assert t[1..] == [t[1], t[2]] && t[1..][1..] == [t[2]] && t[1..][1..][1..] == [];
    assert Select(t, SiteIs("A")) == [t[0], t[1]];
    var classes := Classes([t[0], t[1]]);
    assert classes == [1, 0];
    assert classes[1..] == [0] && classes[1..][1..] == [];
    assert Tally(classes[1..]) == map[0 := 1];
  }

  /** All sites, payloads 0 to 1000: only the 500 kg launch. */
  lemma ThreeLaunchesScatter()
    ensures GetScatterChart(ThreeLaunches(), AllSites, 0, 1000) == [Point(500, 1, "v1")]
  {
    var t := ThreeLaunches();
    assert t[1..] == [t[1], t[2]] && t[1..][1..] == [t[2]] && t[1..][1..][1..] == [];
    assert ScatterRows(t, AllSites, 0, 1000) == [t[0]];
  }
}
