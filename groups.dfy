/**
 * Aggregates as pandas builds them: `groupby(...).count()` / `.sum()` (one row per
 * distinct key, in key order), `sort_values(ascending=False)` on the count,
 * `nlargest(n)` and an `isin` filter on the first key column.
 */
module Groups {
  import opened Wrappers
  import opened Keys

  /** One row of an aggregate: a key and the number counted or summed for it. */
  datatype Group = Group(key: Key, count: nat)

  /** The part of a key a sum is taken over: the whole key, or its first column. */
  datatype Projection = Whole | First

  function Project(p: Projection, k: Key): Key
  {
    match p
    case Whole => k
    case First => if k.Pair? then k.fst else k
  }

  /** The keys that have a row in `gs`. */
  function KeySet(gs: seq<Group>): set<Key>
  {
    set g | g in gs :: g.key
  }

  /** The sum of the counts in `gs` whose projected key is `k`. */
  function SumAt(gs: seq<Group>, p: Projection, k: Key): nat
  {
    if gs == [] then 0
    else (if Project(p, gs[0].key) == k then gs[0].count else 0) + SumAt(gs[1..], p, k)
  }

  /** The sum of all counts in `gs`. */
  function Total(gs: seq<Group>): nat
  {
    if gs == [] then 0 else gs[0].count + Total(gs[1..])
  }

  /** Keys strictly ascending: each key once, in pandas' group order. */
  ghost predicate Ascending(gs: seq<Group>)
  {
    forall i, j :: 0 <= i < j < |gs| ==> Less(gs[i].key, gs[j].key)
  }

  ghost predicate DistinctKeys(gs: seq<Group>)
  {
    forall i, j :: 0 <= i < j < |gs| ==> gs[i].key != gs[j].key
  }

  lemma AscendingIsDistinct(gs: seq<Group>)
    requires Ascending(gs)
    ensures DistinctKeys(gs)
  {
    forall i, j | 0 <= i < j < |gs|
      ensures gs[i].key != gs[j].key
    {
      LessTrichotomy(gs[i].key, gs[j].key);
    }
  }

  lemma {:induction false} DistinctKeySetSize(gs: seq<Group>)
    requires DistinctKeys(gs)
    ensures |KeySet(gs)| == |gs|
  {
    if gs != [] {
      DistinctKeySetSize(gs[1..]);
      assert KeySet(gs) == {gs[0].key} + KeySet(gs[1..]);
      assert gs[0].key !in KeySet(gs[1..]);
    }
  }

  lemma {:induction false} SumAtAbsent(gs: seq<Group>, k: Key)
    requires k !in KeySet(gs)
    ensures SumAt(gs, Whole, k) == 0
  {
    if gs != [] {
      assert KeySet(gs[1..]) <= KeySet(gs);
      SumAtAbsent(gs[1..], k);
    }
  }

  /** In an aggregate with distinct keys, the sum under a key is that key's count. */
  lemma {:induction false} SumAtDistinct(gs: seq<Group>, i: nat)
    requires DistinctKeys(gs) && i < |gs|
    ensures SumAt(gs, Whole, gs[i].key) == gs[i].count
  {
    if i == 0 {
      assert gs[0].key !in KeySet(gs[1..]);
      SumAtAbsent(gs[1..], gs[0].key);
    } else {
      SumAtDistinct(gs[1..], i - 1);
    }
  }

  // ---------------------------------------------------------------------------
  // groupby: tallying (key, weight) items
  // ---------------------------------------------------------------------------

  /** Adds weight `w` to key `k` of an ascending aggregate, inserting `k` in order when it is new. */
  function Add(gs: seq<Group>, k: Key, w: nat): seq<Group>
  {
    if gs == [] then [Group(k, w)]
    else if gs[0].key == k then [Group(k, gs[0].count + w)] + gs[1..]
    else if Less(k, gs[0].key) then [Group(k, w)] + gs
    else [gs[0]] + Add(gs[1..], k, w)
  }

  lemma KeySetCons(g: Group, gs: seq<Group>)
    ensures KeySet([g] + gs) == {g.key} + KeySet(gs)
  {
    assert forall x :: x in [g] + gs <==> x == g || x in gs;
  }

  /** Aggregates with the same groups have the same keys. */
  lemma KeySetOfSameGroups(a: seq<Group>, b: seq<Group>)
    requires multiset(a) == multiset(b)
    ensures KeySet(a) == KeySet(b)
  {
    assert forall x :: x in a <==> x in multiset(a);
    assert forall x :: x in b <==> x in multiset(b);
  }

  lemma AscendingCons(g: Group, gs: seq<Group>)
    requires Ascending(gs) && forall x :: x in gs ==> Less(g.key, x.key)
    ensures Ascending([g] + gs)
  {
    var s := [g] + gs;
    forall i, j | 0 <= i < j < |s|
      ensures Less(s[i].key, s[j].key)
    {
      if i == 0 {
        assert s[j] in gs;
      } else {
        assert s[i] == gs[i - 1] && s[j] == gs[j - 1];
      }
    }
  }

  lemma {:induction false} AddKeys(gs: seq<Group>, k: Key, w: nat)
    ensures KeySet(Add(gs, k, w)) == KeySet(gs) + {k}
  {
    if gs == [] {
      assert Add(gs, k, w) == [Group(k, w)] + [];
      KeySetCons(Group(k, w), []);
    } else {
      assert gs == [gs[0]] + gs[1..];
      KeySetCons(gs[0], gs[1..]);
      if gs[0].key == k {
        KeySetCons(Group(k, gs[0].count + w), gs[1..]);
      } else if Less(k, gs[0].key) {
        KeySetCons(Group(k, w), gs);
      } else {
        AddKeys(gs[1..], k, w);
        KeySetCons(gs[0], Add(gs[1..], k, w));
      }
    }
  }

  lemma {:induction false} AddAscending(gs: seq<Group>, k: Key, w: nat)
    requires Ascending(gs)
    ensures Ascending(Add(gs, k, w))
    ensures KeySet(Add(gs, k, w)) == KeySet(gs) + {k}
  {
    AddKeys(gs, k, w);
    if gs != [] {
      assert Ascending(gs[1..]);
      if gs[0].key == k {
        assert Add(gs, k, w) == [Group(k, gs[0].count + w)] + gs[1..];
        AscendingCons(Group(k, gs[0].count + w), gs[1..]);
      } else if Less(k, gs[0].key) {
        forall x | x in gs
          ensures Less(k, x.key)
        {
          if x != gs[0] {
            LessTransitive(k, gs[0].key, x.key);
          }
        }
        AscendingCons(Group(k, w), gs);
      } else {
        LessTrichotomy(k, gs[0].key);
        var rest := Add(gs[1..], k, w);
        AddAscending(gs[1..], k, w);
        assert gs == [gs[0]] + gs[1..];
        KeySetCons(gs[0], gs[1..]);
        forall x | x in rest
          ensures Less(gs[0].key, x.key)
        {
          assert x.key in KeySet(rest);
        }
        AscendingCons(gs[0], rest);
      }
    }
  }

  lemma {:induction false} AddSum(gs: seq<Group>, k: Key, w: nat, p: Projection, j: Key)
    ensures SumAt(Add(gs, k, w), p, j) == SumAt(gs, p, j) + (if Project(p, k) == j then w else 0)
  {
    if gs != [] && gs[0].key != k && !Less(k, gs[0].key) {
      AddSum(gs[1..], k, w, p, j);
      assert Add(gs, k, w)[1..] == Add(gs[1..], k, w);
    } else if gs != [] && gs[0].key != k {
      assert Add(gs, k, w)[1..] == gs;
    } else if gs != [] {
      assert Add(gs, k, w)[1..] == gs[1..];
    }
  }

  lemma {:induction false} AddTotal(gs: seq<Group>, k: Key, w: nat)
    ensures Total(Add(gs, k, w)) == Total(gs) + w
  {
    if gs != [] && gs[0].key != k && !Less(k, gs[0].key) {
      AddTotal(gs[1..], k, w);
      assert Add(gs, k, w)[1..] == Add(gs[1..], k, w);
    } else if gs != [] && gs[0].key != k {
      assert Add(gs, k, w)[1..] == gs;
    } else if gs != [] {
      assert Add(gs, k, w)[1..] == gs[1..];
    }
  }

  /**
   * The aggregate of (key, weight) items: pandas' `groupby(key)[...].sum()`, and
   * `.count()` when every weight is 0 or 1.
   */
  function Tally(items: seq<Group>): seq<Group>
  {
    if items == [] then [] else Add(Tally(items[1..]), items[0].key, items[0].count)
  }

  /**
   * A tally has one group per distinct item key, in ascending key order; every sum
   * over it, and its grand total, equals that sum over the items.
   */
  lemma {:induction false} TallySpec(items: seq<Group>)
    ensures Ascending(Tally(items))
    ensures KeySet(Tally(items)) == KeySet(items)
    ensures Total(Tally(items)) == Total(items)
    ensures forall p, j :: SumAt(Tally(items), p, j) == SumAt(items, p, j)
  {
    if items != [] {
      var rest := Tally(items[1..]);
      TallySpec(items[1..]);
      AddAscending(rest, items[0].key, items[0].count);
      AddTotal(rest, items[0].key, items[0].count);
      assert KeySet(items) == {items[0].key} + KeySet(items[1..]);
      forall p, j
        ensures SumAt(Tally(items), p, j) == SumAt(items, p, j)
      {
        AddSum(rest, items[0].key, items[0].count, p, j);
      }
    }
  }

  // ---------------------------------------------------------------------------
  // sort_values(by=count, ascending=False)
  // ---------------------------------------------------------------------------

  /** `g` sorts before `h`: larger count first, equal counts in key order. */
  predicate Outranks(g: Group, h: Group)
  {
    g.count > h.count || (g.count == h.count && Less(g.key, h.key))
  }

  /** Sorted by count, largest first (ties in key order). */
  ghost predicate Ranked(gs: seq<Group>)
  {
    forall i, j :: 0 <= i < j < |gs| ==> Outranks(gs[i], gs[j])
  }

  lemma OutranksTransitive(f: Group, g: Group, h: Group)
    requires Outranks(f, g) && Outranks(g, h)
    ensures Outranks(f, h)
  {
    if f.count == g.count == h.count {
      LessTransitive(f.key, g.key, h.key);
    }
  }

  lemma OutranksTotal(g: Group, h: Group)
    requires g.key != h.key
    ensures Outranks(g, h) || Outranks(h, g)
  {
    LessTrichotomy(g.key, h.key);
  }

  function Insert(g: Group, gs: seq<Group>): seq<Group>
  {
    if gs == [] then [g]
    else if Outranks(g, gs[0]) then [g] + gs
    else [gs[0]] + Insert(g, gs[1..])
  }

  /** Sorts by count, largest first; on distinct keys this is a stable sort of a key-ordered input. */
  function Rank(gs: seq<Group>): seq<Group>
  {
    if gs == [] then [] else Insert(gs[0], Rank(gs[1..]))
  }

  lemma RankedCons(g: Group, gs: seq<Group>)
    requires Ranked(gs) && forall x :: x in gs ==> Outranks(g, x)
    ensures Ranked([g] + gs)
  {
    var s := [g] + gs;
    forall i, j | 0 <= i < j < |s|
      ensures Outranks(s[i], s[j])
    {
      if i == 0 {
        assert s[j] in gs;
      } else {
        assert s[i] == gs[i - 1] && s[j] == gs[j - 1];
      }
    }
  }

  lemma DistinctCons(g: Group, gs: seq<Group>)
    requires DistinctKeys(gs) && g.key !in KeySet(gs)
    ensures DistinctKeys([g] + gs)
  {
    var s := [g] + gs;
    forall i, j | 0 <= i < j < |s|
      ensures s[i].key != s[j].key
    {
      if i == 0 {
        assert s[j] in gs;
      } else {
        assert s[i] == gs[i - 1] && s[j] == gs[j - 1];
      }
    }
  }

  lemma {:induction false} InsertMultiset(g: Group, gs: seq<Group>)
    ensures multiset(Insert(g, gs)) == multiset(gs) + multiset{g}
  {
    if gs == [] || Outranks(g, gs[0]) {
      assert Insert(g, gs) == [g] + gs;
    } else {
      var rest := Insert(g, gs[1..]);
      InsertMultiset(g, gs[1..]);
      assert Insert(g, gs) == [gs[0]] + rest;
      assert multiset([gs[0]] + rest) == multiset{gs[0]} + multiset(rest);
      assert gs == [gs[0]] + gs[1..];
      assert multiset(gs) == multiset{gs[0]} + multiset(gs[1..]);
    }
  }

  /** Inserting adds exactly one group. */
  lemma InsertContents(g: Group, gs: seq<Group>)
    ensures multiset(Insert(g, gs)) == multiset(gs) + multiset{g}
    ensures KeySet(Insert(g, gs)) == KeySet(gs) + {g.key}
  {
    InsertMultiset(g, gs);
    assert multiset([g] + gs) == multiset(gs) + multiset{g};
    KeySetOfSameGroups(Insert(g, gs), [g] + gs);
    KeySetCons(g, gs);
  }

  /** Inserting into a ranked aggregate with distinct keys keeps it ranked and distinct. */
  lemma {:induction false} InsertSpec(g: Group, gs: seq<Group>)
    requires Ranked(gs) && DistinctKeys(gs) && g.key !in KeySet(gs)
    ensures Ranked(Insert(g, gs)) && DistinctKeys(Insert(g, gs))
  {
    if gs == [] {
    } else if Outranks(g, gs[0]) {
      forall x | x in gs
        ensures Outranks(g, x)
      {
        if x != gs[0] {
          OutranksTransitive(g, gs[0], x);
        }
      }
      RankedCons(g, gs);
      DistinctCons(g, gs);
    } else {
      assert gs[0].key in KeySet(gs);
      OutranksTotal(g, gs[0]);
      var tail := gs[1..];
      assert KeySet(gs) == {gs[0].key} + KeySet(tail);
      InsertSpec(g, tail);
      InsertContents(g, tail);
      var rest := Insert(g, tail);
      forall x | x in rest
        ensures Outranks(gs[0], x)
      {
        assert x in multiset(rest);
      }
      RankedCons(gs[0], rest);
      DistinctCons(gs[0], rest);
    }
  }

  lemma {:induction false} InsertSum(g: Group, gs: seq<Group>, p: Projection, k: Key)
    ensures SumAt(Insert(g, gs), p, k) == SumAt(gs, p, k) + (if Project(p, g.key) == k then g.count else 0)
  {
    if gs != [] && !Outranks(g, gs[0]) {
      InsertSum(g, gs[1..], p, k);
      assert Insert(g, gs)[1..] == Insert(g, gs[1..]);
    } else if gs != [] {
      assert Insert(g, gs)[1..] == gs;
    }
  }

  /** Ranking is a permutation into count order that keeps every key and every sum. */
  lemma {:induction false} RankSpec(gs: seq<Group>)
    requires DistinctKeys(gs)
    ensures Ranked(Rank(gs)) && DistinctKeys(Rank(gs))
    ensures multiset(Rank(gs)) == multiset(gs)
    ensures KeySet(Rank(gs)) == KeySet(gs)
    ensures forall p, k :: SumAt(Rank(gs), p, k) == SumAt(gs, p, k)
  {
    if gs != [] {
      var tail := gs[1..];
      assert DistinctKeys(tail);
      RankSpec(tail);
      assert KeySet(gs) == {gs[0].key} + KeySet(tail);
      assert gs[0].key !in KeySet(tail);
      InsertSpec(gs[0], Rank(tail));
      InsertContents(gs[0], Rank(tail));
      assert gs == [gs[0]] + tail;
      forall p, k
        ensures SumAt(Rank(gs), p, k) == SumAt(gs, p, k)
      {
        InsertSum(gs[0], Rank(tail), p, k);
      }
    }
  }

  // ---------------------------------------------------------------------------
  // nlargest(n) and the isin filter
  // ---------------------------------------------------------------------------

  /**
   * `nlargest(n)` with keep='first' of a key-ordered series: the first `n` groups
   * by count, ties going to the earlier key.
   */
  function Leaders(totals: seq<Group>, n: nat): seq<Group>
  {
    var r := Rank(totals);
    r[..Min(n, |r|)]
  }

  /** In a ranked aggregate, every group of a prefix outranks every group whose key the prefix lacks. */
  lemma PrefixOutranks(r: seq<Group>, m: nat)
    requires Ranked(r) && m <= |r|
    ensures forall g, h :: g in r[..m] && h in r && h.key !in KeySet(r[..m]) ==> Outranks(g, h)
  {
    forall g, h | g in r[..m] && h in r && h.key !in KeySet(r[..m])
      ensures Outranks(g, h)
    {
      var j :| 0 <= j < |r| && r[j] == h;
      var i :| 0 <= i < m && r[..m][i] == g;
      if j < m {
        assert false;
      }
    }
  }

  /**
   * The leaders are min(n, |totals|) groups of `totals` with distinct keys, in count
   * order, each outranking (a count at least as large, and on a tie an earlier key)
   * every group whose key was dropped.
   */
  lemma LeadersSpec(totals: seq<Group>, n: nat)
    requires DistinctKeys(totals)
    ensures |Leaders(totals, n)| == Min(n, |totals|)
    ensures |KeySet(Leaders(totals, n))| == |Leaders(totals, n)|
    ensures Ranked(Leaders(totals, n)) && DistinctKeys(Leaders(totals, n))
    ensures forall g :: g in Leaders(totals, n) ==> g in totals
    ensures forall g, h :: g in Leaders(totals, n) && h in totals && h.key !in KeySet(Leaders(totals, n))
              ==> Outranks(g, h)
  {
    var r := Rank(totals);
    RankSpec(totals);
    assert |r| == |multiset(r)| == |totals|;
    var m := Min(n, |r|);
    var top := r[..m];
    assert DistinctKeys(top);
    DistinctKeySetSize(top);
    forall g | g in top
      ensures g in totals
    {
      assert g in multiset(r);
    }
    PrefixOutranks(r, m);
    forall h | h in totals
      ensures h in r
    {
      assert h in multiset(r);
    }
  }

  /** Counts re-keyed by their key's first column. */
  function Heads(gs: seq<Group>): seq<Group>
  {
    if gs == [] then [] else [Group(Project(First, gs[0].key), gs[0].count)] + Heads(gs[1..])
  }

  lemma {:induction false} HeadsSpec(gs: seq<Group>)
    ensures forall k :: SumAt(Heads(gs), Whole, k) == SumAt(gs, First, k)
    ensures forall k :: k in KeySet(Heads(gs)) <==> exists g :: g in gs && Project(First, g.key) == k
  {
    if gs != [] {
      HeadsSpec(gs[1..]);
      assert KeySet(Heads(gs)) == {Project(First, gs[0].key)} + KeySet(Heads(gs[1..]));
      assert forall g :: g in gs <==> g == gs[0] || g in gs[1..];
    }
  }

  /** The groups whose key's first column is in `ks`, in their order: `df[df[col].isin(ks)]`. */
  function Keep(gs: seq<Group>, ks: set<Key>): seq<Group>
  {
    if gs == [] then []
    else if Project(First, gs[0].key) in ks then [gs[0]] + Keep(gs[1..], ks)
    else Keep(gs[1..], ks)
  }

  lemma {:induction false} KeepSpec(gs: seq<Group>, ks: set<Key>)
    ensures forall g :: g in Keep(gs, ks) <==> g in gs && Project(First, g.key) in ks
    ensures Ranked(gs) ==> Ranked(Keep(gs, ks))
    ensures forall k :: SumAt(Keep(gs, ks), First, k) == if k in ks then SumAt(gs, First, k) else 0
  {
    if gs != [] {
      KeepSpec(gs[1..], ks);
      assert forall g :: g in gs <==> g == gs[0] || g in gs[1..];
      if Ranked(gs) {
        assert Ranked(gs[1..]);
        if Project(First, gs[0].key) in ks {
          forall x | x in Keep(gs[1..], ks)
            ensures Outranks(gs[0], x)
          {
            var j :| 0 <= j < |gs[1..]| && gs[1..][j] == x;
            assert gs[j + 1] == x;
          }
          RankedCons(gs[0], Keep(gs[1..], ks));
        }
      }
    }
  }

  // ---------------------------------------------------------------------------
  // The top-n breakdown: rank, sum per first key column, nlargest, isin
  // ---------------------------------------------------------------------------

  /**
   * `ranked`: the (key, status) counts sorted by count, largest first;
   * `totals`: their sums per key; `leaders`: the n largest totals;
   * `shown`: the ranked rows of the leading keys.
   */
  datatype TopChart = TopChart(ranked: seq<Group>, totals: seq<Group>, leaders: seq<Group>, shown: seq<Group>)

  function Top(byStatus: seq<Group>, n: nat): TopChart
  {
    var ranked := Rank(byStatus);
    var totals := Tally(Heads(ranked));
    var leaders := Leaders(totals, n);
    TopChart(ranked, totals, leaders, Keep(ranked, KeySet(leaders)))
  }

  /**
   * What the top-n procedure promises of an ascending (key, status) aggregate: the
   * ranking is a sorted permutation; each total is the sum of its key's counts; at
   * most n keys lead, each outranking every dropped key; the shown rows are exactly
   * the ranked rows of the leading keys, still sorted, and a leading key's shown
   * counts add up to its total.
   */
  lemma TopSpec(byStatus: seq<Group>, n: nat)
    requires Ascending(byStatus)
    ensures var t := Top(byStatus, n);
      && Ranked(t.ranked) && multiset(t.ranked) == multiset(byStatus)
      && Ascending(t.totals)
      && (forall g :: g in t.totals ==> g.count == SumAt(byStatus, First, g.key))
      && (forall k :: k in KeySet(t.totals) <==> exists g :: g in byStatus && Project(First, g.key) == k)
      && |t.leaders| == Min(n, |t.totals|) && |KeySet(t.leaders)| == |t.leaders|
      && (forall g :: g in t.leaders ==> g in t.totals)
      && (forall g, h :: g in t.leaders && h in t.totals && h.key !in KeySet(t.leaders) ==> Outranks(g, h))
      && (forall g :: g in t.shown <==> g in t.ranked && Project(First, g.key) in KeySet(t.leaders))
      && Ranked(t.shown)
      && (forall g :: g in t.leaders ==> SumAt(t.shown, First, g.key) == g.count)
  {
    var t := Top(byStatus, n);
    AscendingIsDistinct(byStatus);
    RankSpec(byStatus);
    HeadsSpec(t.ranked);
    TallySpec(Heads(t.ranked));
    AscendingIsDistinct(t.totals);
    LeadersSpec(t.totals, n);
    KeepSpec(t.ranked, KeySet(t.leaders));
    forall g | g in t.totals
      ensures g.count == SumAt(byStatus, First, g.key)
    {
      var i :| 0 <= i < |t.totals| && t.totals[i] == g;
      SumAtDistinct(t.totals, i);
    }
    forall k
      ensures k in KeySet(t.totals) <==> exists g :: g in byStatus && Project(First, g.key) == k
    {
      if k in KeySet(t.totals) {
        var g :| g in t.ranked && Project(First, g.key) == k;
        assert g in multiset(t.ranked);
      }
      if g :| g in byStatus && Project(First, g.key) == k {
        assert g in multiset(t.ranked);
      }
    }
    forall g | g in t.leaders
      ensures SumAt(t.shown, First, g.key) == g.count
    {
      assert g.key in KeySet(t.leaders);
      var i :| 0 <= i < |t.totals| && t.totals[i] == g;
      SumAtDistinct(t.totals, i);
    }
  }
}
