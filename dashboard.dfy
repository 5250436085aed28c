/**
 * The data side of the SpaceX launch-records dashboard: the default payload
 * range, the launch-site dropdown, the success pie chart and the
 * payload/outcome scatter chart, each as a function of the launch table.
 * The table that the app loads once at start-up is the parameter `data`.
 */
module Dashboard {
  import opened Tabular

  /**
   * One row of the launch table: the `Launch Site`, `Payload Mass (kg)`,
   * `Booster Version Category` and `class` (1 for a successful landing, 0 otherwise) columns.
   */
  datatype LaunchRecord = LaunchRecord(site: string, payloadKg: int, boosterCategory: string, outcome: int)

  /** The dropdown value that stands for every launch site. */
  const ALL: string := "ALL"

  /** The label of the dropdown entry whose value is `ALL`. */
  const ALL_LABEL: string := "All Sites"

  function SiteOf(r: LaunchRecord): string { r.site }
  function PayloadOf(r: LaunchRecord): int { r.payloadKg }
  function OutcomeOf(r: LaunchRecord): int { r.outcome }
  function Once(r: LaunchRecord): int { 1 }

  // ----- The default payload range of the slider -----

  /** `spacex_df['Payload Mass (kg)'].max()`; `None` for an empty table, where pandas gives NaN. */
  function MaxPayload(data: seq<LaunchRecord>): (r: Option<int>)
    ensures r.None? <==> data == []
    ensures r.Some? ==> forall i :: 0 <= i < |data| ==> data[i].payloadKg <= r.value
    ensures r.Some? ==> exists i :: 0 <= i < |data| && data[i].payloadKg == r.value
  {
    Max(Column(data, PayloadOf))
  }

  /** `spacex_df['Payload Mass (kg)'].min()`; `None` for an empty table, where pandas gives NaN. */
  function MinPayload(data: seq<LaunchRecord>): (r: Option<int>)
    ensures r.None? <==> data == []
    ensures r.Some? ==> forall i :: 0 <= i < |data| ==> r.value <= data[i].payloadKg
    ensures r.Some? ==> exists i :: 0 <= i < |data| && data[i].payloadKg == r.value
  {
    Min(Column(data, PayloadOf))
  }

  // ----- The launch-site dropdown -----

  /** One entry of the dropdown: the text shown (Dash's `label`) and the value handed to the callbacks. */
  datatype DropdownOption = DropdownOption(text: string, value: string)

  /** `spacex_df['Launch Site'].unique().tolist()` */
  function LaunchSites(data: seq<LaunchRecord>): (sites: seq<string>)
    ensures forall site :: site in sites <==> site in Column(data, SiteOf)
    ensures forall i, j :: 0 <= i < j < |sites| ==> sites[i] != sites[j]
  {
    Distinct(Column(data, SiteOf))
  }

  /**
   * The dropdown's options: "All Sites" with value `ALL`, then one entry per
   * launch site, labelled and valued by the site name, in the order in which
   * the sites first occur in the table.
   */
  function SiteOptions(data: seq<LaunchRecord>): (opts: seq<DropdownOption>)
    ensures |opts| >= 1 && opts[0] == DropdownOption(ALL_LABEL, ALL)
    ensures forall i :: 1 <= i < |opts| ==> opts[i].text == opts[i].value
    ensures forall site :: site in Column(data, SiteOf) <==>
      exists i :: 1 <= i < |opts| && opts[i].value == site
    ensures forall i, j :: 1 <= i < j < |opts| ==> opts[i].value != opts[j].value
    ensures forall i, j :: 1 <= i < j < |opts| ==>
      FirstIndex(Column(data, SiteOf), opts[i].value) < FirstIndex(Column(data, SiteOf), opts[j].value)
  {
    var sites := LaunchSites(data);
    DistinctInFirstOccurrenceOrder(Column(data, SiteOf));
    var opts := [DropdownOption(ALL_LABEL, ALL)]
      + seq(|sites|, i requires 0 <= i < |sites| => DropdownOption(sites[i], sites[i]));
    OptionValuesAreSites(sites, opts);
    opts
  }

  /** Options that list `sites` after one leading entry offer exactly the values in `sites`. */
  lemma OptionValuesAreSites(sites: seq<string>, opts: seq<DropdownOption>)
    requires |opts| == |sites| + 1
    requires forall i :: 0 <= i < |sites| ==> opts[i + 1] == DropdownOption(sites[i], sites[i])
    ensures forall i :: 1 <= i < |opts| ==> opts[i].value == sites[i - 1]
    ensures forall site :: site in sites <==> exists i :: 1 <= i < |opts| && opts[i].value == site
  {
    forall i | 1 <= i < |opts|
      ensures opts[i].value == sites[i - 1]
    {
      assert opts[(i - 1) + 1] == DropdownOption(sites[i - 1], sites[i - 1]);
    }
    forall site | site in sites
      ensures exists i :: 1 <= i < |opts| && opts[i].value == site
    {
      var j :| 0 <= j < |sites| && sites[j] == site;
      assert opts[j + 1].value == site;
    }
  }

  // ----- The two selections behind the charts -----

  /** `df[df['Launch Site'] == site]` */
  function BySite(data: seq<LaunchRecord>, site: string): (r: seq<LaunchRecord>)
    ensures forall i :: 0 <= i < |r| ==> r[i].site == site
    ensures forall x :: x in r <==> x in data && x.site == site
  {
    WithKey(data, SiteOf, site)
  }

  /** The payload mask of the scatter callback: both ends of the range are included. */
  function PayloadMask(low: int, high: int): LaunchRecord -> bool
  {
    (r: LaunchRecord) => low <= r.payloadKg <= high
  }

  /** `df[(df['Payload Mass (kg)'] >= low) & (df['Payload Mass (kg)'] <= high)]` */
  function ByPayload(data: seq<LaunchRecord>, low: int, high: int): (r: seq<LaunchRecord>)
    ensures forall i :: 0 <= i < |r| ==> low <= r[i].payloadKg <= high
    ensures forall x :: x in r <==> x in data && low <= x.payloadKg <= high
  {
    Filter(data, PayloadMask(low, high))
  }

  // ----- The scatter chart -----

  /** Whether the scatter chart for this dropdown value and payload range plots the record `x`. */
  predicate Plotted(enteredSite: string, low: int, high: int, x: LaunchRecord)
  {
    low <= x.payloadKg <= high && (enteredSite == ALL || x.site == enteredSite)
  }

  /**
   * The rows `update_scatter_chart` hands to the scatter plot: the records
   * whose payload lies in `[low, high]` and, unless `enteredSite` is `ALL`,
   * whose site is `enteredSite`; each as often as in the table, in table order.
   */
  function ScatterPoints(data: seq<LaunchRecord>, enteredSite: string, low: int, high: int): (r: seq<LaunchRecord>)
    ensures forall i :: 0 <= i < |r| ==> Plotted(enteredSite, low, high, r[i])
    ensures forall x :: x in r <==> x in data && Plotted(enteredSite, low, high, x)
    ensures forall x :: multiset(r)[x] == if Plotted(enteredSite, low, high, x) then multiset(data)[x] else 0
    ensures IsSubsequence(r, data)
  {
    var inRange := ByPayload(data, low, high);
    if enteredSite == ALL then inRange
    else
      var r := BySite(inRange, enteredSite);
      SubsequenceTransitive(r, inRange, data);
      r
  }

  /** Nothing is plotted exactly when no record of the table is in the selection; that is not an error. */
  lemma ScatterEmptyIffNoMatch(data: seq<LaunchRecord>, enteredSite: string, low: int, high: int)
    ensures ScatterPoints(data, enteredSite, low, high) == [] <==>
      forall i :: 0 <= i < |data| ==> !Plotted(enteredSite, low, high, data[i])
  {
    var r := ScatterPoints(data, enteredSite, low, high);
    if r != [] {
      assert r[0] in r;
    }
  }

  /** A one-point range `[p, p]` plots exactly the selected records whose payload is `p`. */
  lemma ScatterSinglePayload(data: seq<LaunchRecord>, enteredSite: string, p: int)
    ensures forall x :: x in ScatterPoints(data, enteredSite, p, p) <==>
      x in data && x.payloadKg == p && (enteredSite == ALL || x.site == enteredSite)
  {
  }

  /** Restricting to the site first and to the payload range second gives the same points. */
  lemma ScatterSiteFirst(data: seq<LaunchRecord>, enteredSite: string, low: int, high: int)
    requires enteredSite != ALL
    ensures ScatterPoints(data, enteredSite, low, high) == ByPayload(BySite(data, enteredSite), low, high)
  {
    FilterCommutes(data, PayloadMask(low, high), KeyMask(SiteOf, enteredSite));
  }

  /**
   * The slider starts at `[min_payload, max_payload]`, so with the dropdown at
   * its initial value `ALL` the scatter chart plots the whole table, in order.
   */
  lemma InitialScatterShowsEveryLaunch(data: seq<LaunchRecord>)
    requires data != []
    ensures ScatterPoints(data, ALL, MinPayload(data).value, MaxPayload(data).value) == data
  {
    FilterKeepsAll(data, PayloadMask(MinPayload(data).value, MaxPayload(data).value));
  }

  // ----- The pie chart -----

  /**
   * `spacex_df.groupby('Launch Site')['class'].sum()`: one entry per launch
   * site of the table, holding the number of successes at that site.
   */
  function SuccessesBySite(data: seq<LaunchRecord>): (m: map<string, int>)
    ensures forall site :: site in m <==> site in Column(data, SiteOf)
    ensures forall site :: site in m ==> m[site] == Sum(BySite(data, site), OutcomeOf)
    ensures SumOver(m.Keys, m) == Sum(data, OutcomeOf)
  {
    GroupSumOfSelections(data, SiteOf, OutcomeOf);
    GroupSumTotal(data, SiteOf, OutcomeOf);
    GroupSum(data, SiteOf, OutcomeOf)
  }

  /**
   * `filtered_df['class'].value_counts()`: one entry per distinct `class`
   * value among `rs`, holding the number of rows with that value.
   */
  function OutcomeCounts(rs: seq<LaunchRecord>): (m: map<int, int>)
    ensures forall c :: c in m <==> c in Column(rs, OutcomeOf)
    ensures forall c :: c in m ==> m[c] == |WithKey(rs, OutcomeOf, c)| && m[c] >= 1
    ensures SumOver(m.Keys, m) == |rs|
  {
    var m := GroupSum(rs, OutcomeOf, Once);
    GroupSumOfSelections(rs, OutcomeOf, Once);
    GroupSumTotal(rs, OutcomeOf, Once);
    SumOfOnes(rs, Once);
    CountsOfPresentOutcomes(rs, m);
    m
  }

  /** Every `class` value that occurs in `rs` is counted by the number of rows that carry it. */
  lemma CountsOfPresentOutcomes(rs: seq<LaunchRecord>, m: map<int, int>)
    requires forall c :: c in m <==> c in Column(rs, OutcomeOf)
    requires forall c :: c in m ==> m[c] == Sum(WithKey(rs, OutcomeOf, c), Once)
    ensures forall c :: c in m ==> m[c] == |WithKey(rs, OutcomeOf, c)| && m[c] >= 1
  {
    forall c | c in m
      ensures m[c] == |WithKey(rs, OutcomeOf, c)| && m[c] >= 1
    {
      SumOfOnes(WithKey(rs, OutcomeOf, c), Once);
      CountOfPresentOutcome(rs, c);
    }
  }

  /** What `update_pie_chart` hands to the pie: per-site successes, or per-outcome counts at one site. */
  datatype PieData =
    | SuccessesPerSite(successes: map<string, int>)
    | OutcomesAtSite(counts: map<int, int>)

  /**
   * The pie data for a dropdown value: for `ALL`, the successes of every site;
   * otherwise the number of launches of each outcome at the chosen site, which
   * is empty (an empty chart, not an error) when no launch is from that site.
   */
  function PieChart(data: seq<LaunchRecord>, enteredSite: string): (p: PieData)
    ensures p.SuccessesPerSite? <==> enteredSite == ALL
    ensures p.SuccessesPerSite? ==>
      && (forall site :: site in p.successes <==> site in Column(data, SiteOf))
      && (forall site :: site in p.successes ==> p.successes[site] == Sum(BySite(data, site), OutcomeOf))
    ensures p.OutcomesAtSite? ==>
      && (forall c :: c in p.counts <==> c in Column(BySite(data, enteredSite), OutcomeOf))
      && (forall c :: c in p.counts ==> p.counts[c] == |WithKey(BySite(data, enteredSite), OutcomeOf, c)|)
      && SumOver(p.counts.Keys, p.counts) == |BySite(data, enteredSite)|
      && (p.counts == map[] <==> enteredSite !in Column(data, SiteOf))
  {
    if enteredSite == ALL then SuccessesPerSite(SuccessesBySite(data))
    else
      var rs := BySite(data, enteredSite);
      var counts := OutcomeCounts(rs);
      SiteHasLaunches(data, enteredSite);
      OutcomesAtSite(counts)
  }

  /** A site occurs in the site column exactly when selecting it gives some launch. */
  lemma SiteHasLaunches(data: seq<LaunchRecord>, site: string)
    ensures site in Column(data, SiteOf) <==> BySite(data, site) != []
    ensures OutcomeCounts(BySite(data, site)) == map[] <==> BySite(data, site) == []
  {
    var rs := BySite(data, site);
    if site in Column(data, SiteOf) {
      var i :| 0 <= i < |data| && Column(data, SiteOf)[i] == site;
      assert data[i] in rs;
    }
    if rs != [] {
      assert rs[0] in data;
      var i :| 0 <= i < |data| && data[i] == rs[0];
      assert Column(data, SiteOf)[i] == site;
      assert Column(rs, OutcomeOf)[0] in OutcomeCounts(rs);
    }
  }

  /** Every site the dropdown offers gives a pie with at least one slice. */
  lemma OfferedSitesHaveLaunches(data: seq<LaunchRecord>, i: int)
    requires 1 <= i < |SiteOptions(data)|
    ensures BySite(data, SiteOptions(data)[i].value) != []
    ensures OutcomeCounts(BySite(data, SiteOptions(data)[i].value)) != map[]
  {
    SiteHasLaunches(data, SiteOptions(data)[i].value);
  }

  /** Every `class` in the table is 0 or 1, as in the launch records the dashboard is built for. */
  predicate BinaryOutcomes(data: seq<LaunchRecord>)
  {
    forall i :: 0 <= i < |data| ==> data[i].outcome == 0 || data[i].outcome == 1
  }

  /** With 0/1 outcomes, summing `class` counts the successful launches. */
  lemma {:induction false} SumCountsSuccesses(rs: seq<LaunchRecord>)
    requires BinaryOutcomes(rs)
    ensures Sum(rs, OutcomeOf) == |WithKey(rs, OutcomeOf, 1)|
    decreases |rs|
  {
    if rs != [] {
      SumCountsSuccesses(rs[1..]);
      WithKeyCons(rs, OutcomeOf, 1);
    }
  }

  /**
   * The two pies agree: with 0/1 outcomes, the `ALL` slice of a site is the
   * `1` slice of that site's own pie (0 when it has no success), and lies
   * between 0 and the number of launches from the site.
   */
  lemma SitePiesAgree(data: seq<LaunchRecord>, site: string)
    requires BinaryOutcomes(data) && site in Column(data, SiteOf)
    ensures var counts := OutcomeCounts(BySite(data, site));
      && site in SuccessesBySite(data)
      && SuccessesBySite(data)[site] == (if 1 in counts then counts[1] else 0)
      && 0 <= SuccessesBySite(data)[site] <= |BySite(data, site)|
  {
    var rs := BySite(data, site);
    SiteOutcomesAreBinary(data, site);
    SumCountsSuccesses(rs);
    CountOfPresentOutcome(rs, 1);
  }

  /** The launches of one site of a table with 0/1 outcomes have 0/1 outcomes. */
  lemma SiteOutcomesAreBinary(data: seq<LaunchRecord>, site: string)
    requires BinaryOutcomes(data)
    ensures BinaryOutcomes(BySite(data, site))
  {
    var rs := BySite(data, site);
    forall i | 0 <= i < |rs|
      ensures rs[i].outcome == 0 || rs[i].outcome == 1
    {
      assert rs[i] in data;
    }
  }

  /** Rows with outcome `c` exist exactly when `c` occurs in the `class` column. */
  lemma CountOfPresentOutcome(rs: seq<LaunchRecord>, c: int)
    ensures WithKey(rs, OutcomeOf, c) != [] <==> c in Column(rs, OutcomeOf)
  {
    var sel := WithKey(rs, OutcomeOf, c);
    if sel != [] {
      assert sel[0] in rs;
      var i :| 0 <= i < |rs| && rs[i] == sel[0];
      assert Column(rs, OutcomeOf)[i] == c;
    }
    if c in Column(rs, OutcomeOf) {
      var i :| 0 <= i < |rs| && Column(rs, OutcomeOf)[i] == c;
      assert rs[i] in sel;
    }
  }
}
