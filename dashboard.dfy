/**
 * The dashboard over a derived launch table (space.py lines 40-53, 61-65, 98, 124,
 * 153, 171, 208-211 and 245-248): the country filter and its empty-view stop, the
 * three metrics, the four group counts and the two top-15 breakdowns.
 */
module Dashboard {
  import opened Wrappers
  import opened Keys
  import opened Groups
  import opened Missions

  // ---------------------------------------------------------------------------
  // The country filter: df.query("Country == @country")
  // ---------------------------------------------------------------------------

  /**
   * `df["Country"].unique()`: each country once, in order of first appearance. A
   * missing country is one of the options, as pandas lists NaN among the uniques.
   */
  function Countries(table: seq<Mission>): (cs: seq<Option<string>>)
    ensures forall c :: c in cs <==> exists i :: 0 <= i < |table| && table[i].country == c
    ensures forall i, j :: 0 <= i < j < |cs| ==> cs[i] != cs[j]
  {
    if table == [] then []
    else
      var front := table[..|table| - 1];
      var cs := Countries(front);
      var c := table[|table| - 1].country;
      assert forall i :: 0 <= i < |front| ==> front[i] == table[i];
      if c in cs then cs else cs + [c]
  }

  /** The rows whose country is selected, in table order. */
  function Select(table: seq<Mission>, selection: seq<Option<string>>): seq<Mission>
  {
    if table == [] then []
    else (if table[0].country in selection then [table[0]] else []) + Select(table[1..], selection)
  }

  /**
   * The view holds exactly the rows whose country is selected, each as often as
   * in the table, and no other row.
   */
  lemma {:induction false} SelectSpec(table: seq<Mission>, selection: seq<Option<string>>)
    ensures forall m :: m in Select(table, selection) <==> m in table && m.country in selection
    ensures forall m :: multiset(Select(table, selection))[m] ==
              if m.country in selection then multiset(table)[m] else 0
    ensures |Select(table, selection)| <= |table|
  {
    if table != [] {
      SelectSpec(table[1..], selection);
      assert table == [table[0]] + table[1..];
      assert multiset(table) == multiset{table[0]} + multiset(table[1..]);
    }
  }

  /** Filtering keeps the table's order: the view of a concatenation is the concatenation of the views. */
  lemma {:induction false} SelectAppend(a: seq<Mission>, b: seq<Mission>, selection: seq<Option<string>>)
    ensures Select(a + b, selection) == Select(a, selection) + Select(b, selection)
  {
    if a == [] {
      assert a + b == b;
    } else {
      var head := if a[0].country in selection then [a[0]] else [];
      assert (a + b)[0] == a[0] && (a + b)[1..] == a[1..] + b;
      assert Select(a + b, selection) == head + Select(a[1..] + b, selection);
      SelectAppend(a[1..], b, selection);
      var rest, tail := Select(a[1..], selection), Select(b, selection);
      assert head + (rest + tail) == (head + rest) + tail;
    }
  }

  /** A selection that holds every row's country keeps the whole table. */
  lemma {:induction false} SelectAll(table: seq<Mission>, selection: seq<Option<string>>)
    requires forall i :: 0 <= i < |table| ==> table[i].country in selection
    ensures Select(table, selection) == table
  {
    if table != [] {
      assert forall i :: 0 <= i < |table[1..]| ==> table[1..][i] == table[i + 1];
      SelectAll(table[1..], selection);
    }
  }

  /** The default selection, every country of the table, keeps every row. */
  lemma DefaultSelectionKeepsAll(table: seq<Mission>)
    ensures Select(table, Countries(table)) == table
  {
    SelectAll(table, Countries(table));
  }

  /** The view is empty exactly when no row's country is selected; in particular for the empty selection. */
  lemma {:induction false} SelectEmpty(table: seq<Mission>, selection: seq<Option<string>>)
    ensures Select(table, selection) == [] <==> forall i :: 0 <= i < |table| ==> table[i].country !in selection
  {
    if table != [] {
      SelectEmpty(table[1..], selection);
      assert forall i :: 1 <= i < |table| ==> table[1..][i - 1] == table[i];
    }
  }

  // ---------------------------------------------------------------------------
  // Metrics over the whole table (lines 61-65)
  // ---------------------------------------------------------------------------

  datatype Metrics = Metrics(total: nat, success: nat, failure: nat)

  /** `len(df[df['Status Mission'] == status])`. */
  function CountStatus(table: seq<Mission>, status: string): nat
  {
    if table == [] then 0
    else (if table[0].statusMission == status then 1 else 0) + CountStatus(table[1..], status)
  }

  /** The table's number of launches, of successes and of failures. */
  function MetricsOf(table: seq<Mission>): Metrics
  {
    Metrics(|table|, CountStatus(table, "Success"), CountStatus(table, "Failure"))
  }

  /** Rows of two different statuses never together outnumber the table. */
  lemma {:induction false} CountTwoStatuses(table: seq<Mission>, s: string, t: string)
    requires s != t
    ensures CountStatus(table, s) + CountStatus(table, t) <= |table|
  {
    if table != [] {
      CountTwoStatuses(table[1..], s, t);
    }
  }

  /** Counting a status is additive over concatenation. */
  lemma {:induction false} CountStatusAppend(a: seq<Mission>, b: seq<Mission>, status: string)
    ensures CountStatus(a + b, status) == CountStatus(a, status) + CountStatus(b, status)
  {
    if a == [] {
      assert a + b == b;
    } else {
      assert (a + b)[0] == a[0];
      assert (a + b)[1..] == a[1..] + b;
      CountStatusAppend(a[1..], b, status);
    }
  }

  /** The successes and failures together are at most all launches. */
  lemma MetricsBounds(table: seq<Mission>)
    ensures MetricsOf(table).total == |table|
    ensures MetricsOf(table).success + MetricsOf(table).failure <= MetricsOf(table).total
  {
    CountTwoStatuses(table, "Success", "Failure");
  }

  // ---------------------------------------------------------------------------
  // Group counts (lines 98, 124, 153, 171 and the first step of 208 and 245)
  // ---------------------------------------------------------------------------

  /** The group keys of the charts. */
  datatype Grouping =
    | ByYearAndStatus      // line 98
    | ByCountry            // line 124
    | ByMissionStatus      // line 153
    | ByRocketStatus       // line 171
    | ByRocketAndStatus    // line 208
    | ByCompanyAndStatus   // line 245

  /** The column `.count()` counts: `Mission` everywhere but at line 171. */
  datatype Counted = MissionCounted | RocketNameCounted

  /** A row's group key; a missing country has none, as `groupby` drops NaN keys. */
  function GroupKey(grouping: Grouping, m: Mission): Option<Key>
  {
    match grouping
    case ByYearAndStatus => Some(Pair(Num(m.year), Text(m.statusMission)))
    case ByCountry => if m.country.Some? then Some(Text(m.country.value)) else None
    case ByMissionStatus => Some(Text(m.statusMission))
    case ByRocketStatus => Some(Text(m.statusRocket))
    case ByRocketAndStatus => Some(Pair(Text(m.rocketName), Text(m.statusMission)))
    case ByCompanyAndStatus => Some(Pair(Text(m.company), Text(m.statusMission)))
  }

  /** The counted cell is present: a `Mission` may be missing, a `RocketName` never is. */
  predicate Present(c: Counted, m: Mission)
  {
    match c
    case MissionCounted => m.mission.Some?
    case RocketNameCounted => true
  }

  /** A row's item: its key with weight 1 when the counted cell is present, else 0; none without a key. */
  function Item(grouping: Grouping, c: Counted, m: Mission): seq<Group>
  {
    match GroupKey(grouping, m)
    case None => []
    case Some(k) => [Group(k, if Present(c, m) then 1 else 0)]
  }

  /** One item per row with a key. */
  function Items(rows: seq<Mission>, grouping: Grouping, c: Counted): seq<Group>
  {
    if rows == [] then [] else Item(grouping, c, rows[0]) + Items(rows[1..], grouping, c)
  }

  /** `groupby(grouping)[c].count()`: one group per key, in key order. */
  function GroupCount(rows: seq<Mission>, grouping: Grouping, c: Counted): seq<Group>
  {
    Tally(Items(rows, grouping, c))
  }

  /** The row has a key that projects by `p` to `k`, and its counted cell is present. */
  predicate CountedAt(grouping: Grouping, c: Counted, p: Projection, k: Key, m: Mission)
  {
    GroupKey(grouping, m).Some? && Project(p, GroupKey(grouping, m).value) == k && Present(c, m)
  }

  /** The rows whose key, projected by `p`, is `k` and whose counted cell is present. */
  function RowsAt(rows: seq<Mission>, grouping: Grouping, c: Counted, p: Projection, k: Key): nat
  {
    if rows == [] then 0
    else (if CountedAt(grouping, c, p, k, rows[0]) then 1 else 0) + RowsAt(rows[1..], grouping, c, p, k)
  }

  /** The rows that have a key and a present counted cell. */
  function KeyedRows(rows: seq<Mission>, grouping: Grouping, c: Counted): nat
  {
    if rows == [] then 0
    else (if GroupKey(grouping, rows[0]).Some? && Present(c, rows[0]) then 1 else 0) + KeyedRows(rows[1..], grouping, c)
  }

  /** Sums over a row's item followed by more items. */
  lemma ItemCons(grouping: Grouping, c: Counted, m: Mission, rest: seq<Group>, p: Projection, k: Key)
    ensures SumAt(Item(grouping, c, m) + rest, p, k) == (if CountedAt(grouping, c, p, k, m) then 1 else 0) + SumAt(rest, p, k)
    ensures Total(Item(grouping, c, m) + rest) == (if GroupKey(grouping, m).Some? && Present(c, m) then 1 else 0) + Total(rest)
    ensures KeySet(Item(grouping, c, m) + rest) ==
              (if GroupKey(grouping, m).Some? then {GroupKey(grouping, m).value} else {}) + KeySet(rest)
  {
    var s := Item(grouping, c, m) + rest;
    if GroupKey(grouping, m).Some? {
      assert s[1..] == rest;
    } else {
      assert s == rest;
    }
  }

  /** Each sum over the items is the number of rows counted at that key. */
  lemma {:induction false} ItemsSum(rows: seq<Mission>, grouping: Grouping, c: Counted, p: Projection, k: Key)
    ensures SumAt(Items(rows, grouping, c), p, k) == RowsAt(rows, grouping, c, p, k)
  {
    if rows != [] {
      ItemsSum(rows[1..], grouping, c, p, k);
      ItemCons(grouping, c, rows[0], Items(rows[1..], grouping, c), p, k);
    }
  }

  /** The items' total is the number of rows with a key and a present cell. */
  lemma {:induction false} ItemsTotal(rows: seq<Mission>, grouping: Grouping, c: Counted)
    ensures Total(Items(rows, grouping, c)) == KeyedRows(rows, grouping, c)
  {
    if rows != [] {
      ItemsTotal(rows[1..], grouping, c);
      ItemCons(grouping, c, rows[0], Items(rows[1..], grouping, c), Whole, Num(0));
    }
  }

  /** The items' keys are the rows' keys. */
  lemma {:induction false} ItemsKeys(rows: seq<Mission>, grouping: Grouping, c: Counted, k: Key)
    ensures k in KeySet(Items(rows, grouping, c)) <==>
              exists i :: 0 <= i < |rows| && GroupKey(grouping, rows[i]) == Some(k)
  {
    if rows != [] {
      ItemsKeys(rows[1..], grouping, c, k);
      ItemCons(grouping, c, rows[0], Items(rows[1..], grouping, c), Whole, k);
      if k in KeySet(Items(rows[1..], grouping, c)) {
        var i :| 0 <= i < |rows[1..]| && GroupKey(grouping, rows[1..][i]) == Some(k);
        assert GroupKey(grouping, rows[i + 1]) == Some(k);
      }
      if i :| 1 <= i < |rows| && GroupKey(grouping, rows[i]) == Some(k) {
        assert GroupKey(grouping, rows[1..][i - 1]) == Some(k);
      }
    }
  }

  /**
   * Each key of the rows is counted once, in key order, with the number of its
   * rows whose counted cell is present; the counts add up to all such rows.
   */
  lemma GroupCountSpec(rows: seq<Mission>, grouping: Grouping, c: Counted)
    ensures Ascending(GroupCount(rows, grouping, c))
    ensures forall k :: k in KeySet(GroupCount(rows, grouping, c)) <==>
              exists i :: 0 <= i < |rows| && GroupKey(grouping, rows[i]) == Some(k)
    ensures forall g :: g in GroupCount(rows, grouping, c) ==> g.count == RowsAt(rows, grouping, c, Whole, g.key)
    ensures forall p, k :: SumAt(GroupCount(rows, grouping, c), p, k) == RowsAt(rows, grouping, c, p, k)
    ensures Total(GroupCount(rows, grouping, c)) == KeyedRows(rows, grouping, c)
  {
    var gc := GroupCount(rows, grouping, c);
    TallySpec(Items(rows, grouping, c));
    ItemsTotal(rows, grouping, c);
    forall p, k
      ensures SumAt(gc, p, k) == RowsAt(rows, grouping, c, p, k)
    {
      ItemsSum(rows, grouping, c, p, k);
    }
    forall k
      ensures k in KeySet(gc) <==> exists i :: 0 <= i < |rows| && GroupKey(grouping, rows[i]) == Some(k)
    {
      ItemsKeys(rows, grouping, c, k);
    }
    AscendingIsDistinct(gc);
    forall g | g in gc
      ensures g.count == RowsAt(rows, grouping, c, Whole, g.key)
    {
      var i :| 0 <= i < |gc| && gc[i] == g;
      SumAtDistinct(gc, i);
    }
  }

  /** A row with key `k` and a present cell makes `k`'s count positive. */
  lemma {:induction false} RowsAtPositive(rows: seq<Mission>, grouping: Grouping, c: Counted, k: Key, i: nat)
    requires i < |rows| && GroupKey(grouping, rows[i]) == Some(k) && Present(c, rows[i])
    ensures RowsAt(rows, grouping, c, Whole, k) > 0
  {
    if i > 0 {
      assert rows[1..][i - 1] == rows[i];
      RowsAtPositive(rows[1..], grouping, c, k, i - 1);
    }
  }

  /** Counting `RocketName` (line 171), which is never missing, gives every group a positive count. */
  lemma RocketCountsPositive(rows: seq<Mission>, grouping: Grouping)
    ensures forall g :: g in GroupCount(rows, grouping, RocketNameCounted) ==> g.count > 0
  {
    GroupCountSpec(rows, grouping, RocketNameCounted);
    forall g | g in GroupCount(rows, grouping, RocketNameCounted)
      ensures g.count > 0
    {
      assert g.key in KeySet(GroupCount(rows, grouping, RocketNameCounted));
      var i :| 0 <= i < |rows| && GroupKey(grouping, rows[i]) == Some(g.key);
      RowsAtPositive(rows, grouping, RocketNameCounted, g.key, i);
    }
  }

  /** Counting `Mission` keeps a group whose every `Mission` is missing, with count 0. */
  lemma MissingMissionCountsZero(m: Mission, grouping: Grouping)
    requires m.mission.None? && GroupKey(grouping, m).Some?
    ensures GroupCount([m], grouping, MissionCounted) == [Group(GroupKey(grouping, m).value, 0)]
  {
    assert [m][1..] == [];
    assert Items([m], grouping, MissionCounted) == Item(grouping, MissionCounted, m) + [];
    var items := Items([m], grouping, MissionCounted);
    assert items == [Group(GroupKey(grouping, m).value, 0)];
    assert items[1..] == [];
    assert Tally(items) == Add(Tally([]), items[0].key, items[0].count);
  }

  /** No row of `k` has a `Mission`, so none of them is counted at `k`. */
  lemma {:induction false} RowsAtMissionless(rows: seq<Mission>, grouping: Grouping, k: Key)
    requires forall i :: 0 <= i < |rows| && GroupKey(grouping, rows[i]) == Some(k) ==> rows[i].mission.None?
    ensures RowsAt(rows, grouping, MissionCounted, Whole, k) == 0
  {
    if rows != [] {
      assert forall i :: 1 <= i < |rows| ==> rows[1..][i - 1] == rows[i];
      RowsAtMissionless(rows[1..], grouping, k);
    }
  }

  /**
   * Counting `Mission`, a key that occurs in the view but whose every row lacks a
   * mission is still listed, with count 0.
   */
  lemma MissionlessGroupListed(rows: seq<Mission>, grouping: Grouping, k: Key)
    requires exists i :: 0 <= i < |rows| && GroupKey(grouping, rows[i]) == Some(k)
    requires forall i :: 0 <= i < |rows| && GroupKey(grouping, rows[i]) == Some(k) ==> rows[i].mission.None?
    ensures Group(k, 0) in GroupCount(rows, grouping, MissionCounted)
  {
    var gc := GroupCount(rows, grouping, MissionCounted);
    GroupCountSpec(rows, grouping, MissionCounted);
    assert k in KeySet(gc);
    var g :| g in gc && g.key == k;
    RowsAtMissionless(rows, grouping, k);
    assert g == Group(k, 0);
  }

  // ---------------------------------------------------------------------------
  // The top-15 breakdowns (lines 208-211 and 245-248)
  // ---------------------------------------------------------------------------

  /** `nlargest(15)`. */
  const TopCount: nat := 15

  /** Counts by (key, status), ranked, summed per key, the 15 largest keys kept. */
  function TopBreakdown(view: seq<Mission>, grouping: Grouping): TopChart
  {
    Top(GroupCount(view, grouping, MissionCounted), TopCount)
  }

  /** Each key's total is its number of rows with a mission. */
  lemma TopTotals(view: seq<Mission>, grouping: Grouping)
    ensures forall g :: g in TopBreakdown(view, grouping).totals ==>
              g.count == RowsAt(view, grouping, MissionCounted, First, g.key)
  {
    var byStatus := GroupCount(view, grouping, MissionCounted);
    GroupCountSpec(view, grouping, MissionCounted);
    TopSpec(byStatus, TopCount);
  }

  /**
   * At most 15 distinct keys lead, and each of them outranks every dropped key: a
   * larger total, or an equal total and an earlier key.
   */
  lemma TopLeaders(view: seq<Mission>, grouping: Grouping)
    ensures var t := TopBreakdown(view, grouping);
      && |t.leaders| <= TopCount && |KeySet(t.leaders)| == |t.leaders|
      && |t.leaders| == Min(TopCount, |t.totals|)
      && (forall g :: g in t.leaders ==> g in t.totals)
      && (forall g, h :: g in t.leaders && h in t.totals && h.key !in KeySet(t.leaders) ==> Outranks(g, h))
  {
    var t := TopBreakdown(view, grouping);
    TallySpec(Heads(t.ranked));
    AscendingIsDistinct(t.totals);
    LeadersSpec(t.totals, TopCount);
  }

  /**
   * The shown rows are exactly the (key, status) counts of the leading keys,
   * largest first, and a leading key's shown counts add up to its total.
   */
  lemma TopShown(view: seq<Mission>, grouping: Grouping)
    ensures var t := TopBreakdown(view, grouping);
      && (forall g :: g in t.shown <==>
            g in GroupCount(view, grouping, MissionCounted) && Project(First, g.key) in KeySet(t.leaders))
      && Ranked(t.shown)
      && (forall g :: g in t.leaders ==> SumAt(t.shown, First, g.key) == g.count)
  {
    var byStatus := GroupCount(view, grouping, MissionCounted);
    var t := TopBreakdown(view, grouping);
    GroupCountSpec(view, grouping, MissionCounted);
    TopSpec(byStatus, TopCount);
    forall g
      ensures g in t.ranked <==> g in byStatus
    {
      assert g in t.ranked <==> g in multiset(t.ranked);
    }
  }

  // ---------------------------------------------------------------------------
  // The page
  // ---------------------------------------------------------------------------

  /** What the page shows once the view is not empty. */
  datatype Charts = Charts(
    metrics: Metrics,
    byYear: seq<Group>,
    byCountry: seq<Group>,
    byMissionStatus: seq<Group>,
    byRocketStatus: seq<Group>,
    rockets: TopChart,
    companies: TopChart)

  /** Why the page shows no chart: the table could not be derived, or the view is empty. */
  datatype Halt = DeriveFailed(error: DeriveError) | NoData

  /** Lines 46-248 on a derived table and the selected countries. */
  function Render(table: seq<Mission>, selection: seq<Option<string>>): Result<Charts, Halt>
  {
    var view := Select(table, selection);
    if view == [] then Failure(NoData)
    else
      Success(Charts(
        MetricsOf(table),
        GroupCount(view, ByYearAndStatus, MissionCounted),
        GroupCount(view, ByCountry, MissionCounted),
        GroupCount(view, ByMissionStatus, MissionCounted),
        GroupCount(view, ByRocketStatus, RocketNameCounted),
        TopBreakdown(view, ByRocketAndStatus),
        TopBreakdown(view, ByCompanyAndStatus)))
  }

  /**
   * The page stops exactly when no row's country is selected, and the empty
   * selection always stops it; otherwise the metrics are those of the whole table.
   */
  lemma RenderSpec(table: seq<Mission>, selection: seq<Option<string>>)
    ensures Render(table, selection) == Failure(NoData) <==>
              forall i :: 0 <= i < |table| ==> table[i].country !in selection
    ensures Render(table, selection).Success? ==> Render(table, selection).value.metrics == MetricsOf(table)
    ensures Render(table, []) == Failure(NoData)
  {
    SelectEmpty(table, selection);
    SelectEmpty(table, []);
  }

  /** The metrics do not depend on the selection. */
  lemma MetricsIgnoreSelection(table: seq<Mission>, s: seq<Option<string>>, t: seq<Option<string>>)
    requires Render(table, s).Success? && Render(table, t).Success?
    ensures Render(table, s).value.metrics == Render(table, t).value.metrics
  {
  }

  /** With the default selection every chart is drawn from the whole table, unless it has no row. */
  lemma DefaultRender(table: seq<Mission>)
    ensures Render(table, Countries(table)).Success? <==> table != []
    ensures table != [] ==>
              Render(table, Countries(table)) == Success(Charts(
                MetricsOf(table),
                GroupCount(table, ByYearAndStatus, MissionCounted),
                GroupCount(table, ByCountry, MissionCounted),
                GroupCount(table, ByMissionStatus, MissionCounted),
                GroupCount(table, ByRocketStatus, RocketNameCounted),
                TopBreakdown(table, ByRocketAndStatus),
                TopBreakdown(table, ByCompanyAndStatus)))
  {
    DefaultSelectionKeepsAll(table);
  }

  /** Lines 24-248: derive the raw rows, then render the selected countries. */
  function Page(raw: seq<RawMission>, selection: seq<Option<string>>): Result<Charts, Halt>
  {
    match DeriveAll(raw)
    case Failure(e) => Failure(DeriveFailed(e))
    case Success(table) => Render(table, selection)
  }

  /**
   * The page for any selection: a derivation error is reported as it is; otherwise
   * the page renders the derived table, and stops exactly when no derived row's
   * country is selected.
   */
  lemma PageSpec(raw: seq<RawMission>, selection: seq<Option<string>>)
    ensures DeriveAll(raw).Failure? ==> Page(raw, selection) == Failure(DeriveFailed(DeriveAll(raw).error))
    ensures DeriveAll(raw).Success? ==> Page(raw, selection) == Render(DeriveAll(raw).value, selection)
    ensures DeriveAll(raw).Success? ==>
              (Page(raw, selection) == Failure(NoData) <==>
                 forall i :: 0 <= i < |raw| ==> DeriveAll(raw).value[i].country !in selection)
  {
    if DeriveAll(raw).Success? {
      DeriveAllSpec(raw);
      RenderSpec(DeriveAll(raw).value, selection);
    }
  }

  /** The page as it first opens, with every country selected. */
  function DefaultPage(raw: seq<RawMission>): Result<Charts, Halt>
  {
    match DeriveAll(raw)
    case Failure(e) => Failure(DeriveFailed(e))
    case Success(table) => Render(table, Countries(table))
  }

  /**
   * The first page shows charts exactly when the file has rows and derives; a
   * derivation error is reported as it is.
   */
  lemma DefaultPageSpec(raw: seq<RawMission>)
    ensures DefaultPage(raw).Success? <==> DeriveAll(raw).Success? && raw != []
    ensures DeriveAll(raw).Failure? ==> DefaultPage(raw) == Failure(DeriveFailed(DeriveAll(raw).error))
    ensures DefaultPage(raw).Success? ==> DefaultPage(raw).value.metrics.total == |raw|
  {
    DeriveAllSpec(raw);
    if DeriveAll(raw).Success? {
      DefaultRender(DeriveAll(raw).value);
    }
  }
}
