/**
 * The statistics panel of components/StatsPanel.tsx: when opened with no
 * statistics loaded it fetches the (originLanguage, period) column pair of
 * every word, counts each value, with 'Bilinmiyor' standing for a missing or
 * empty one, and keeps the two frequency tables sorted by count, largest first.
 *
 * The data-store query is left out; its outcome is the parameter of
 * `FinishFetch`. The counting records are maps plus the list of their keys in
 * insertion order, the order `Object.entries` lists non-numeric keys in.
 */
module StatsPanel {
  import opened Types
  import opened Collections

  /** The label of a missing or empty value. */
  const Unknown: string := "Bilinmiyor"

  /** A row of the query: both columns may be null. */
  datatype Row = Row(originLanguage: Option<string>, period: Option<string>)

  /** One bar of a chart: its label (`name`) and how many rows carry it. */
  datatype Stat = Stat(name: string, value: nat)

  /** What the query comes back with. */
  datatype Response = Failure | NoData | Rows(rows: seq<Row>)

  /** `value || 'Bilinmiyor'`: null and the empty string are falsy. */
  function Label(v: Option<string>): string
  {
    if v.None? || v.value == "" then Unknown else v.value
  }

  function LangLabels(rows: seq<Row>): (r: seq<string>)
    ensures |r| == |rows|
  {
    seq(|rows|, i requires 0 <= i < |rows| => Label(rows[i].originLanguage))
  }

  function PeriodLabels(rows: seq<Row>): (r: seq<string>)
    ensures |r| == |rows|
  {
    seq(|rows|, i requires 0 <= i < |rows| => Label(rows[i].period))
  }

  /** A row whose value is missing or empty is counted under 'Bilinmiyor', any other under its value. */
  lemma LabelDefault(rows: seq<Row>, i: nat)
    requires i < |rows|
    ensures LangLabels(rows)[i] == if rows[i].originLanguage.None? || rows[i].originLanguage.value == ""
                                   then "Bilinmiyor" else rows[i].originLanguage.value
    ensures PeriodLabels(rows)[i] == if rows[i].period.None? || rows[i].period.value == ""
                                     then "Bilinmiyor" else rows[i].period.value
  {
  }

  // ---------------------------------------------------------------------
  // Counting.

  /** `counts` and `keys` are the counting record of `labels`. */
  ghost predicate TallyOf(labels: seq<string>, counts: map<string, nat>, keys: seq<string>)
  {
    && keys == Dedup(labels)
    && (forall k :: k in counts <==> k in keys)
    && (forall k :: k in counts ==> counts[k] == Occurrences(labels, k))
  }

  /** `counts[x] = (counts[x] || 0) + 1`. */
  function Bump(counts: map<string, nat>, x: string): (r: map<string, nat>)
    ensures r.Keys == counts.Keys + {x}
  {
    counts[x := (if x in counts then counts[x] else 0) + 1]
  }

  lemma TallyKeysStep(labels: seq<string>, x: string, counts: map<string, nat>, keys: seq<string>)
    requires TallyOf(labels, counts, keys)
    ensures var keys' := if x in counts then keys else keys + [x];
            keys' == Dedup(labels + [x]) && forall k :: k in Bump(counts, x) <==> k in keys'
  {
    DedupSnoc(labels, x);
  }

  lemma TallyCountsStep(labels: seq<string>, x: string, counts: map<string, nat>, keys: seq<string>)
    requires TallyOf(labels, counts, keys)
    ensures forall k :: k in Bump(counts, x) ==> Bump(counts, x)[k] == Occurrences(labels + [x], k)
  {
    forall k | k in Bump(counts, x) ensures Bump(counts, x)[k] == Occurrences(labels + [x], k) {
      OccurrencesSnoc(labels, x, k);
      if k == x && x !in counts {
        DedupSameElements(labels);
        assert x !in labels;
      }
    }
  }

  /** One more row keeps the record equal to the counts of the labels seen. */
  lemma TallyStep(labels: seq<string>, x: string, counts: map<string, nat>, keys: seq<string>)
    requires TallyOf(labels, counts, keys)
    ensures TallyOf(labels + [x], Bump(counts, x), if x in counts then keys else keys + [x])
  {
    TallyKeysStep(labels, x, counts, keys);
    TallyCountsStep(labels, x, counts, keys);
  }

  /** The forEach over the rows, counting both columns at once. */
  method CountRows(rows: seq<Row>)
    returns (lCounts: map<string, nat>, lKeys: seq<string>, pCounts: map<string, nat>, pKeys: seq<string>)
    ensures TallyOf(LangLabels(rows), lCounts, lKeys)
    ensures TallyOf(PeriodLabels(rows), pCounts, pKeys)
  {
    lCounts, lKeys, pCounts, pKeys := map[], [], map[], [];
    var n := 0;
    while n < |rows|
      invariant n <= |rows|
      invariant TallyOf(LangLabels(rows[..n]), lCounts, lKeys)
      invariant TallyOf(PeriodLabels(rows[..n]), pCounts, pKeys)
    {
      var row := rows[n];
      var lang := Label(row.originLanguage);
      var period := Label(row.period);
      assert LangLabels(rows[..n + 1]) == LangLabels(rows[..n]) + [lang];
      assert PeriodLabels(rows[..n + 1]) == PeriodLabels(rows[..n]) + [period];
      TallyStep(LangLabels(rows[..n]), lang, lCounts, lKeys);
      TallyStep(PeriodLabels(rows[..n]), period, pCounts, pKeys);
      if lang !in lCounts {
        lKeys := lKeys + [lang];
      }
      lCounts := Bump(lCounts, lang);
      if period !in pCounts {
        pKeys := pKeys + [period];
      }
      pCounts := Bump(pCounts, period);
      n := n + 1;
    }
    assert rows[..n] == rows;
  }

  // ---------------------------------------------------------------------
  // From counts to sorted bars.

  /** `Object.entries(counts).map(([label, value]) => ({ label, value }))`. */
  function EntriesOf(counts: map<string, nat>, keys: seq<string>): (r: seq<Stat>)
    requires forall i :: 0 <= i < |keys| ==> keys[i] in counts
    ensures |r| == |keys|
  {
    seq(|keys|, i requires 0 <= i < |keys| => Stat(keys[i], counts[keys[i]]))
  }

  /** The comparator `(a, b) => b.value - a.value`: `a` may come first when its count is not smaller. */
  predicate NotFewer(a: Stat, b: Stat)
  {
    a.value >= b.value
  }

  /** One bar per distinct label with its number of rows, in first-seen order. */
  function CountsOf(labels: seq<string>): (r: seq<Stat>)
    ensures |r| == |Dedup(labels)|
  {
    var keys := Dedup(labels);
    seq(|keys|, i requires 0 <= i < |keys| => Stat(keys[i], Occurrences(labels, keys[i])))
  }

  /** The table the panel shows for a column: the bars sorted by count,
      largest first, ties in first-seen order. */
  function Stats(labels: seq<string>): seq<Stat>
  {
    SortBy(CountsOf(labels), NotFewer)
  }

  /** The pipeline on the counting record of `labels` builds exactly `Stats(labels)`. */
  lemma EntriesOfTally(labels: seq<string>, counts: map<string, nat>, keys: seq<string>)
    requires TallyOf(labels, counts, keys)
    ensures forall i :: 0 <= i < |keys| ==> keys[i] in counts
    ensures SortBy(EntriesOf(counts, keys), NotFewer) == Stats(labels)
  {
    assert EntriesOf(counts, keys) == CountsOf(labels);
  }

  function SumValues(s: seq<Stat>): nat
  {
    if s == [] then 0 else SumValues(s[..|s| - 1]) + s[|s| - 1].value
  }

  lemma {:induction false} SumValuesCons(x: Stat, s: seq<Stat>)
    ensures SumValues([x] + s) == x.value + SumValues(s)
  {
    if s != [] {
      var init := s[..|s| - 1];
      assert ([x] + s)[..|s|] == [x] + init;
      SumValuesCons(x, init);
    }
  }

  lemma {:induction false} SumValuesInsert(x: Stat, s: seq<Stat>, le: (Stat, Stat) -> bool)
    ensures SumValues(InsertBy(x, s, le)) == x.value + SumValues(s)
  {
    if s == [] || le(x, s[0]) {
      SumValuesCons(x, s);
    } else {
      SumValuesInsert(x, s[1..], le);
      SumValuesCons(s[0], InsertBy(x, s[1..], le));
      SumValuesCons(s[0], s[1..]);
      assert [s[0]] + s[1..] == s;
    }
  }

  /** Sorting moves bars around without changing the total. */
  lemma {:induction false} SumValuesSort(s: seq<Stat>, le: (Stat, Stat) -> bool)
    ensures SumValues(SortBy(s, le)) == SumValues(s)
  {
    if s != [] {
      SumValuesSort(s[1..], le);
      SumValuesInsert(s[0], SortBy(s[1..], le), le);
      SumValuesCons(s[0], s[1..]);
      assert [s[0]] + s[1..] == s;
    }
  }

  lemma {:induction false} SumValuesOfCounts(labels: seq<string>, keys: seq<string>)
    ensures SumValues(seq(|keys|, i requires 0 <= i < |keys| => Stat(keys[i], Occurrences(labels, keys[i]))))
            == SumOccurrences(keys, labels)
  {
    if keys != [] {
      var init := keys[..|keys| - 1];
      SumValuesOfCounts(labels, init);
      var s := seq(|keys|, i requires 0 <= i < |keys| => Stat(keys[i], Occurrences(labels, keys[i])));
      assert s[..|s| - 1] == seq(|init|, i requires 0 <= i < |init| => Stat(init[i], Occurrences(labels, init[i])));
    }
  }

  /** The counts add up to the number of rows. */
  lemma StatsSum(labels: seq<string>)
    ensures SumValues(Stats(labels)) == |labels|
  {
    SumValuesSort(CountsOf(labels), NotFewer);
    SumValuesOfCounts(labels, Dedup(labels));
    SumOccurrencesOfDedup(labels);
  }

  /** The bars are sorted by count, largest first. */
  lemma StatsSorted(labels: seq<string>)
    ensures forall i, j :: 0 <= i < j < |Stats(labels)| ==> Stats(labels)[i].value >= Stats(labels)[j].value
  {
    var entries := CountsOf(labels);
    SortBySorted(entries, NotFewer);
    SortedIsPairwise(SortBy(entries, NotFewer), NotFewer);
  }

  /** Each bar's count is the number of rows with its label, and no bar has a label no row has. */
  lemma StatsCounts(labels: seq<string>)
    ensures forall i :: 0 <= i < |Stats(labels)| ==>
              Stats(labels)[i].name in labels &&
              Stats(labels)[i].value == Occurrences(labels, Stats(labels)[i].name)
  {
    var entries := CountsOf(labels);
    var r := Stats(labels);
    DedupSameElements(labels);
    forall i | 0 <= i < |r|
      ensures r[i].name in labels && r[i].value == Occurrences(labels, r[i].name)
    {
      assert r[i] in multiset(entries);
      var k :| 0 <= k < |entries| && entries[k] == r[i];
    }
  }

  /** Every label of a row has a bar. */
  lemma StatsComplete(labels: seq<string>, i: nat)
    requires i < |labels|
    ensures exists j :: 0 <= j < |Stats(labels)| && Stats(labels)[j].name == labels[i]
  {
    var keys := Dedup(labels);
    var entries := CountsOf(labels);
    var r := Stats(labels);
    DedupSameElements(labels);
    var k :| 0 <= k < |keys| && keys[k] == labels[i];
    assert entries[k] in multiset(r);
    var j :| 0 <= j < |r| && r[j] == entries[k];
  }

  lemma {:induction false} DistinctCountsAtMostOne<T>(s: seq<T>, x: T)
    requires Distinct(s)
    ensures multiset(s)[x] <= 1
  {
    if s != [] {
      var init := s[..|s| - 1];
      assert s == init + [s[|s| - 1]];
      DistinctCountsAtMostOne(init, x);
      if x == s[|s| - 1] {
        assert x !in init;
      }
    }
  }

  lemma SameMultisetDistinct<T>(s: seq<T>, t: seq<T>)
    requires multiset(s) == multiset(t) && Distinct(t)
    ensures Distinct(s)
  {
    forall i, j | 0 <= i < j < |s| ensures s[i] != s[j] {
      if s[i] == s[j] {
        assert s == s[..j] + s[j..];
        assert s[i] in multiset(s[..j]) && s[j] in multiset(s[j..]);
        DistinctCountsAtMostOne(t, s[i]);
        assert false;
      }
    }
  }

  /** Each label has one bar. */
  lemma StatsLabelsUnique(labels: seq<string>)
    ensures forall i, j :: 0 <= i < j < |Stats(labels)| ==> Stats(labels)[i].name != Stats(labels)[j].name
  {
    var keys := Dedup(labels);
    var entries := CountsOf(labels);
    var r := Stats(labels);
    assert Distinct(entries) by {
      forall i, j | 0 <= i < j < |entries| ensures entries[i] != entries[j] {
        assert entries[i].name == keys[i] && entries[j].name == keys[j];
      }
    }
    SameMultisetDistinct(r, entries);
    StatsCounts(labels);
  }

  // ---------------------------------------------------------------------
  // The panel's state.

  class Panel {
    var loading: bool
    var langStats: seq<Stat>
    var periodStats: seq<Stat>

    constructor()
      ensures !loading && langStats == [] && periodStats == []
    {
      loading := false;
      langStats := [];
      periodStats := [];
    }

    /** The effect on `isOpen`: a fetch starts only when the panel is open and
        no language statistics are loaded. */
    predicate ShouldFetch(isOpen: bool)
      reads this
    {
      isOpen && |langStats| == 0
    }

    /** The effect run when `isOpen` changes: a fetch starts (`started`)
        exactly when the guard holds; otherwise nothing changes. */
    method OnOpen(isOpen: bool) returns (started: bool)
      modifies this
      ensures started == old(ShouldFetch(isOpen))
      ensures started ==> loading
      ensures !started ==> loading == old(loading)
      ensures langStats == old(langStats) && periodStats == old(periodStats)
    {
      started := ShouldFetch(isOpen);
      if started {
        StartFetch();
      }
    }

    /** The start of `fetchStats`: `setLoading(true)` before the query. */
    method StartFetch()
      modifies this
      ensures loading && langStats == old(langStats) && periodStats == old(periodStats)
    {
      loading := true;
    }

    /** The rest of `fetchStats`, once the query has answered. */
    method FinishFetch(response: Response)
      modifies this
      ensures !loading
      ensures response.Rows? ==> langStats == Stats(LangLabels(response.rows)) &&
                                 periodStats == Stats(PeriodLabels(response.rows))
      ensures !response.Rows? ==> langStats == old(langStats) && periodStats == old(periodStats)
    {
      if response.Failure? {
        loading := false;
        return;
      }
      if response.Rows? {
        var lCounts, lKeys, pCounts, pKeys := CountRows(response.rows);
        EntriesOfTally(LangLabels(response.rows), lCounts, lKeys);
        EntriesOfTally(PeriodLabels(response.rows), pCounts, pKeys);
        var sortedLangs := SortBy(EntriesOf(lCounts, lKeys), NotFewer);
        var sortedPeriods := SortBy(EntriesOf(pCounts, pKeys), NotFewer);
        langStats := sortedLangs;
        periodStats := sortedPeriods;
      }
      loading := false;
    }
  }

  /** A fetch that returned rows loads a non-empty language table, so
      reopening the panel does not fetch again; a fetch with no rows leaves it
      empty, so every reopening fetches again. */
  lemma RowsStopRefetch(rows: seq<Row>)
    ensures |Stats(LangLabels(rows))| > 0 <==> |rows| > 0
  {
    if |rows| > 0 {
      StatsComplete(LangLabels(rows), 0);
    } else {
      assert LangLabels(rows) == [];
    }
  }
}
