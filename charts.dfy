/** The three chart slots of the dashboard (script.js:106-117) and their
    refill by `renderCharts` (script.js:120-230). A chart keeps the labels and
    values it was built with; what Chart.js draws from them is not modelled. */
module Charts {
  import opened Options
  import opened Seqs
  import opened JsNumber
  import opened CsvParser
  import opened Display
  import opened Aggregation

  datatype ChartKind = Bar | Line | Pie

  /** A chart instance: its type, its labels and its one data set, and how
      many times `destroy()` has been called on it. */
  class Chart {
    const kind: ChartKind
    const labels: seq<string>
    const values: seq<real>
    var destroyCount: nat

    constructor (kind: ChartKind, labels: seq<string>, values: seq<real>)
      ensures this.kind == kind && this.labels == labels && this.values == values
      ensures destroyCount == 0
    {
      this.kind := kind;
      this.labels := labels;
      this.values := values;
      destroyCount := 0;
    }

    predicate Destroyed()
      reads this
    {
      destroyCount > 0
    }

    /** `chart.destroy()`. */
    method Destroy()
      modifies this
      ensures destroyCount == old(destroyCount) + 1
    {
      destroyCount := destroyCount + 1;
    }
  }

  /** The bar label of a record: `${item.title || 'Untitled'} (${item.year || 'N/A'})`. */
  function ProjectLabel(e: Entry): string {
    ShowOr(e, "title", "Untitled") + " (" + ShowOr(e, "year", "N/A") + ")"
  }

  /** The bar value of a record: `item.estimatedLoss || 0`. */
  function LossOrZero(e: Entry): (r: real)
    ensures LossOf(e).Some? ==> r == LossOf(e).value
    ensures LossOf(e).None? ==> r == 0.0
  {
    match LossOf(e)
    case None => 0.0
    case Some(x) => x
  }

  /** On a parsed record the bar label is the title (or `Untitled` when it is
      missing or empty), then the decimal year in parentheses (or `N/A` when
      the year is missing or 0). */
  lemma ProjectLabelParsed(e: Entry)
    requires WellTyped(e)
    ensures ProjectLabel(e) ==
              (if "title" in e && e["title"].s != "" then e["title"].s else "Untitled")
              + " (" + (if "year" in e && e["year"].i != 0 then ShowInt(e["year"].i) else "N/A") + ")"
  {
    if "title" in e {
      assert FieldShape("title", e["title"]);
    }
    if "year" in e {
      assert FieldShape("year", e["year"]);
    }
  }

  /** On a parsed record the bar value is the stored loss when the record has
      an `estimatedLoss` column, and 0 otherwise. */
  lemma LossOrZeroParsed(e: Entry)
    requires WellTyped(e)
    ensures LossOrZero(e) == (if "estimatedLoss" in e then e["estimatedLoss"].r else 0.0)
  {
    if "estimatedLoss" in e {
      assert FieldShape("estimatedLoss", e["estimatedLoss"]);
    }
  }

  /** The line chart's labels: the sorted year keys as their decimal strings. */
  function YearTexts(years: seq<int>): (r: seq<string>)
    ensures |r| == |years|
  {
    seq(|years|, k requires 0 <= k < |years| => ShowInt(years[k]))
  }

  /** Every year label reads back as its year under `parseInt` (the numeric
      comparator `a - b` therefore compares the years themselves), so the
      labels are pairwise distinct when the years are. */
  lemma YearTextsRoundTrip(years: seq<int>)
    ensures forall k :: 0 <= k < |years| ==> ParseInt(YearTexts(years)[k]) == Some(years[k])
    ensures NoDup(years) ==> NoDup(YearTexts(years))
  {
    var r := YearTexts(years);
    forall k | 0 <= k < |years| ensures ParseInt(r[k]) == Some(years[k]) {
      ParseIntShowInt(years[k], "");
      assert ShowInt(years[k]) + "" == ShowInt(years[k]);
    }
  }

  /** The three chart slots. `created` holds every chart this registry has
      made; `Valid` says each slot holds its own live chart and every chart
      that has left its slot was destroyed exactly once. */
  class ChartRegistry {
    var byProject: Chart?
    var overTime: Chart?
    var byIndustry: Chart?
    ghost var created: set<Chart>

    function Live(): set<Chart>
      reads this
    {
      (if byProject != null then {byProject} else {}) +
      (if overTime != null then {overTime} else {}) +
      (if byIndustry != null then {byIndustry} else {})
    }

    ghost predicate Valid()
      reads this, created
    {
      && Live() <= created
      && (byProject != null && overTime != null ==> byProject != overTime)
      && (byProject != null && byIndustry != null ==> byProject != byIndustry)
      && (overTime != null && byIndustry != null ==> overTime != byIndustry)
      && (forall c :: c in Live() ==> c.destroyCount == 0)
      && (forall c :: c in created && c !in Live() ==> c.destroyCount == 1)
    }

    /** The three `let … = null` declarations. */
    constructor ()
      ensures Valid()
      ensures byProject == null && overTime == null && byIndustry == null
      ensures created == {}
    {
      byProject, overTime, byIndustry := null, null, null;
      created := {};
    }

    /** `destroyExistingCharts()`: each occupied slot's chart is destroyed
        once, an empty slot destroys nothing, and all three slots end empty. */
    method DestroyExistingCharts()
      requires Valid()
      modifies this, Live()
      ensures Valid()
      ensures byProject == null && overTime == null && byIndustry == null
      ensures created == old(created)
      ensures forall c :: c in old(Live()) ==> c.destroyCount == old(c.destroyCount) + 1 && c.Destroyed()
      ensures forall c :: c in created && c !in old(Live()) ==> c.destroyCount == old(c.destroyCount)
    {
      if byProject != null { byProject.Destroy(); }
      if overTime != null { overTime.Destroy(); }
      if byIndustry != null { byIndustry.Destroy(); }
      byProject, overTime, byIndustry := null, null, null;
    }

    /** `renderCharts(lossData)`: the previous charts are destroyed; with no
        records the slots stay empty, otherwise they receive new charts built
        by `NewCharts`. */
    method RenderCharts(lossData: seq<Entry>)
      requires Valid()
      modifies this, Live()
      ensures Valid()
      ensures forall c :: c in old(Live()) ==> c.destroyCount == 1
      ensures forall c :: c in old(created) && c !in old(Live()) ==> c.destroyCount == old(c.destroyCount)
      ensures forall c :: c in created ==> c in old(created) || fresh(c)
      ensures |lossData| == 0 ==> byProject == null && overTime == null && byIndustry == null
      ensures |lossData| > 0 ==>
                && byProject != null && overTime != null && byIndustry != null
                && fresh(byProject) && fresh(overTime) && fresh(byIndustry)
                && ShowsProjects(byProject, lossData)
                && ShowsYears(overTime, lossData)
                && ShowsIndustries(byIndustry, lossData)
    {
      DestroyExistingCharts();
      if |lossData| == 0 {
        return;
      }
      var bar, line, pie := NewCharts(lossData);
      Install(bar, line, pie);
    }

    /** The three slot assignments `… = new Chart(…)` after the slots were
        cleared. */
    method Install(bar: Chart, line: Chart, pie: Chart)
      requires Valid()
      requires byProject == null && overTime == null && byIndustry == null
      requires bar != line && bar != pie && line != pie
      requires bar !in created && line !in created && pie !in created
      requires bar.destroyCount == 0 && line.destroyCount == 0 && pie.destroyCount == 0
      modifies this
      ensures Valid()
      ensures byProject == bar && overTime == line && byIndustry == pie
      ensures created == old(created) + {bar, line, pie}
    {
      byProject, overTime, byIndustry := bar, line, pie;
      created := created + {bar, line, pie};
    }
  }

  /** The bar chart: one bar per record, in record order. */
  predicate ShowsProjects(c: Chart, lossData: seq<Entry>) {
    && c.kind == Bar
    && c.labels == seq(|lossData|, k requires 0 <= k < |lossData| => ProjectLabel(lossData[k]))
    && c.values == seq(|lossData|, k requires 0 <= k < |lossData| => LossOrZero(lossData[k]))
  }

  /** The line chart: the years in increasing order, each with its total; the
      totals together hold the whole loss of the records with a year. */
  predicate ShowsYears(c: Chart, lossData: seq<Entry>) {
    var years := YearLabels(lossData);
    && c.kind == Line
    && c.labels == YearTexts(years)
    && |c.values| == |years|
    && (forall k :: 0 <= k < |years| ==> c.values[k] == GroupTotal(lossData, YearOf, years[k]))
    && Sum(c.values) == Total(lossData, YearOf)
  }

  /** The pie chart: the industries in `Object.keys` order, each with its
      total; the totals together hold the whole loss of the records with an
      industry. */
  predicate ShowsIndustries(c: Chart, lossData: seq<Entry>) {
    && c.kind == Pie
    && c.labels == IndustryLabels(lossData)
    && |c.values| == |c.labels|
    && (forall k :: 0 <= k < |c.labels| ==> c.values[k] == GroupTotal(lossData, IndustryOf, c.labels[k]))
    && Sum(c.values) == Total(lossData, IndustryOf)
  }

  /** The three `new Chart(...)` calls of `renderCharts`. */
  method NewCharts(lossData: seq<Entry>) returns (bar: Chart, line: Chart, pie: Chart)
    ensures fresh(bar) && fresh(line) && fresh(pie)
    ensures bar != line && bar != pie && line != pie
    ensures bar.destroyCount == 0 && line.destroyCount == 0 && pie.destroyCount == 0
    ensures ShowsProjects(bar, lossData) && ShowsYears(line, lossData) && ShowsIndustries(pie, lossData)
  {
    var projectLabels := seq(|lossData|, k requires 0 <= k < |lossData| => ProjectLabel(lossData[k]));
    var projectValues := seq(|lossData|, k requires 0 <= k < |lossData| => LossOrZero(lossData[k]));
    bar := new Chart(Bar, projectLabels, projectValues);

    var years, totals := YearSeries(lossData);
    line := new Chart(Line, YearTexts(years), totals);

    var industries, industryTotals := IndustrySeries(lossData);
    pie := new Chart(Pie, industries, industryTotals);
  }
}
