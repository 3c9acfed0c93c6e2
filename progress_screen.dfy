/**
 * The progress screen: per-exercise histories grouped from the progress records, the weight and volume
 * chart series, the padding of one-point series, the personal record, and deleting an exercise's records.
 */
module ProgressScreen {
  import opened Wrappers
  import opened Js
  import opened Seqs
  import opened Sorting
  import opened WorkoutData

  /** A record joins its exercise's history when it has a set and its first set's weight is truthy. */
  predicate Qualifies(r: ProgressRecord) {
    |r.sets| > 0 && Truthy(r.sets[0].weight)
  }

  /** The history of `name`: its qualifying records, in the order of `records`. */
  function History(records: seq<ProgressRecord>, name: string): seq<ProgressRecord>
    decreases |records|
  {
    if records == [] then []
    else History(records[..|records| - 1], name) + (if records[|records| - 1].name == name && Qualifies(records[|records| - 1]) then [records[|records| - 1]] else [])
  }

  /** Whether a record belongs to the history of `name`. */
  function InHistoryOf(name: string): ProgressRecord -> bool {
    (r: ProgressRecord) => r.name == name && Qualifies(r)
  }

  /** A history is the name's qualifying records, kept in order. */
  lemma {:induction false} HistoryIsFilter(records: seq<ProgressRecord>, name: string)
    ensures History(records, name) == Filter(records, InHistoryOf(name))
    decreases |records|
  {
    if records != [] {
      var init, last := records[..|records| - 1], records[|records| - 1];
      assert records == init + [last];
      HistoryIsFilter(init, name);
      FilterConcat(init, [last], InHistoryOf(name));
      FilterSingle(last, InHistoryOf(name));
    }
  }

  /**
   * A history holds exactly the name's qualifying records, each as often as in `records` and in the
   * same order, and no more records than there are.
   */
  lemma HistoryMembers(records: seq<ProgressRecord>, name: string)
    ensures |History(records, name)| <= |records|
    ensures forall r :: r in History(records, name) <==> r in records && r.name == name && Qualifies(r)
    ensures Subsequence(History(records, name), records)
    ensures forall r ::
      multiset(History(records, name))[r] == if r.name == name && Qualifies(r) then multiset(records)[r] else 0
  {
    HistoryIsFilter(records, name);
    FilterIsSubsequence(records, InHistoryOf(name));
    FilterCount(records, InHistoryOf(name));
  }

  /** The names of all records. */
  function Names(records: seq<ProgressRecord>): set<string> {
    set r | r in records :: r.name
  }

  lemma {:induction false} HistoryOfAbsentName(records: seq<ProgressRecord>, name: string)
    requires name !in Names(records)
    ensures History(records, name) == []
    decreases |records|
  {
    if records != [] {
      var init := records[..|records| - 1];
      assert Names(init) <= Names(records) by {
        forall r | r in init ensures r in records {
          assert records == init + [records[|records| - 1]];
        }
      }
      HistoryOfAbsentName(init, name);
    }
  }

  /** Adding a record adds its name. */
  lemma NamesSnoc(records: seq<ProgressRecord>, r: ProgressRecord)
    ensures Names(records + [r]) == Names(records) + {r.name}
  {
    var t := records + [r];
    forall n | n in Names(t) ensures n in Names(records) + {r.name} {
      var q :| q in t && q.name == n;
      if q != r {
        assert q in records;
      }
    }
    assert r in t;
    forall n | n in Names(records) ensures n in Names(t) {
      var q :| q in records && q.name == n;
      assert q in t;
    }
  }

  /** Adding a record extends only its own name's history, and only when it qualifies. */
  lemma HistorySnoc(records: seq<ProgressRecord>, r: ProgressRecord, n: string)
    ensures History(records + [r], n) == History(records, n) + (if r.name == n && Qualifies(r) then [r] else [])
  {
    var t := records + [r];
    assert t[..|t| - 1] == records;
  }

  /** The prefix one longer is the prefix with the next record appended. */
  lemma PrefixStep(records: seq<ProgressRecord>, i: nat)
    requires i < |records|
    ensures records[..i + 1] == records[..i] + [records[i]]
  {
  }

  /** One step of the grouping keeps each group equal to its name's history. */
  lemma GroupStep(prefix: seq<ProgressRecord>, record: ProgressRecord,
                  before: map<string, seq<ProgressRecord>>, after: map<string, seq<ProgressRecord>>)
    requires before.Keys == Names(prefix)
    requires forall n :: n in before ==> before[n] == History(prefix, n)
    requires after.Keys == before.Keys + {record.name}
    requires forall n :: n in before && n != record.name ==> after[n] == before[n]
    requires after[record.name] ==
      (if record.name in before then before[record.name] else []) + (if Qualifies(record) then [record] else [])
    ensures after.Keys == Names(prefix + [record])
    ensures forall n :: n in after ==> after[n] == History(prefix + [record], n)
  {
    NamesSnoc(prefix, record);
    forall n | n in after ensures after[n] == History(prefix + [record], n) {
      HistorySnoc(prefix, record, n);
      if n == record.name && record.name !in before {
        HistoryOfAbsentName(prefix, record.name);
      }
    }
  }

  /**
   * The `exerciseHistory` reduce over the records (`Object.values(progressData)`, in key order): every record's
   * name gets a group, possibly empty, and each qualifying record is pushed onto its name's group.
   */
  method GroupByName(records: seq<ProgressRecord>) returns (groups: map<string, seq<ProgressRecord>>)
    ensures groups.Keys == Names(records)
    ensures forall n :: n in groups ==> groups[n] == History(records, n)
  {
    groups := map[];
    for i := 0 to |records|
      invariant groups.Keys == Names(records[..i])
      invariant forall n :: n in groups ==> groups[n] == History(records[..i], n)
    {
      var record := records[i];
      ghost var before := groups;
      if record.name !in groups {
        groups := groups[record.name := []];
      }
      if |record.sets| > 0 && Truthy(record.sets[0].weight) {
        groups := groups[record.name := groups[record.name] + [record]];
      }
      PrefixStep(records, i);
      GroupStep(records[..i], record, before, groups);
    }
    assert records[..|records|] == records;
  }

  /** A chart's series as the screen builds it and then pads in place. */
  class ChartData {
    var labels: seq<Label>
    var data: seq<Number>

    constructor (labels: seq<Label>, data: seq<Number>)
      ensures this.labels == labels && this.data == data
    {
      this.labels := labels;
      this.data := data;
    }
  }

  function RecordDate(r: ProgressRecord): int {
    r.date
  }

  /** `Number(set.weight) || 0` for every set. */
  function ZeroedWeights(sets: seq<WorkSet>): seq<Option<nat>> {
    seq(|sets|, i requires 0 <= i < |sets| => Some(OrZero(sets[i].weight)))
  }

  /** A weight chart point: the largest set weight, a weight that is not a number counting as 0. */
  function WeightPoint(r: ProgressRecord): Number {
    MathMax(ZeroedWeights(r.sets))
  }

  /** A record without sets has no largest weight; otherwise the point is the largest weight, counting missing ones as 0. */
  lemma WeightPointMeaning(r: ProgressRecord)
    ensures r.sets == [] <==> WeightPoint(r) == NegInfinity
    ensures r.sets != [] ==> WeightPoint(r).Finite?
    ensures WeightPoint(r).Finite? ==>
      && (forall s :: s in r.sets ==> OrZero(s.weight) <= WeightPoint(r).n)
      && (exists s :: s in r.sets && OrZero(s.weight) == WeightPoint(r).n)
  {
    var ws := ZeroedWeights(r.sets);
    assert None !in ws;
    if WeightPoint(r).Finite? {
      var m := WeightPoint(r).n;
      forall s | s in r.sets ensures OrZero(s.weight) <= m {
        var i :| 0 <= i < |r.sets| && r.sets[i] == s;
        assert ws[i] in ws;
      }
      var i :| 0 <= i < |ws| && ws[i] == Some(m);
      assert r.sets[i] in r.sets;
    }
  }

  /** One set's contribution to the volume: weight times reps, either counting as 0 when it is not a number. */
  function SetVolume(s: WorkSet): nat {
    OrZero(s.weight) * OrZero(s.reps)
  }

  /** The `reduce` of a record's sets into its total volume, from the first set to the last. */
  function Volume(sets: seq<WorkSet>): nat
    decreases |sets|
  {
    if sets == [] then 0
    else Volume(sets[..|sets| - 1]) + SetVolume(sets[|sets| - 1])
  }

  lemma {:induction false} VolumeConcat(a: seq<WorkSet>, b: seq<WorkSet>)
    ensures Volume(a + b) == Volume(a) + Volume(b)
    decreases |b|
  {
    if b != [] {
      assert (a + b)[..|a + b| - 1] == a + b[..|b| - 1];
      VolumeConcat(a, b[..|b| - 1]);
    } else {
      assert a + b == a;
    }
  }

  /** The volume bounds each set's contribution and is 0 exactly when every set contributes 0. */
  lemma {:induction false} VolumeMeaning(sets: seq<WorkSet>)
    ensures forall s :: s in sets ==> SetVolume(s) <= Volume(sets)
    ensures Volume(sets) == 0 <==> forall s :: s in sets ==> SetVolume(s) == 0
    decreases |sets|
  {
    if sets != [] {
      var init, last := sets[..|sets| - 1], sets[|sets| - 1];
      assert sets == init + [last];
      VolumeMeaning(init);
    }
  }

  function VolumePoint(r: ProgressRecord): Number {
    Finite(Volume(r.sets))
  }

  /** The chart of a history already sorted: "Start" and 0 when empty, else one date label and one value per record. */
  function ChartOf(sorted: seq<ProgressRecord>, point: ProgressRecord -> Number): (seq<Label>, seq<Number>) {
    if sorted == [] then ([Start], [Finite(0)])
    else (seq(|sorted|, i requires 0 <= i < |sorted| => Day(sorted[i].date)),
          seq(|sorted|, i requires 0 <= i < |sorted| => point(sorted[i])))
  }

  /**
   * A chart of a history: "Start" and 0 for an empty one; otherwise the records sorted by date ascending
   * (records of equal date keep their order), one label and one value per record.
   */
  lemma ChartOfMeaning(history: seq<ProgressRecord>, point: ProgressRecord -> Number)
    ensures history == [] ==> ChartOf(SortBy(history, RecordDate), point) == ([Start], [Finite(0)])
    ensures history != [] ==>
      var sorted := SortBy(history, RecordDate);
      var (labels, data) := ChartOf(sorted, point);
      && |sorted| == |history| == |labels| == |data|
      && (forall i :: 0 <= i < |sorted| ==> labels[i] == Day(sorted[i].date) && data[i] == point(sorted[i]))
      && (forall i, j :: 0 <= i < j < |sorted| ==> sorted[i].date <= sorted[j].date)
      && multiset(sorted) == multiset(history)
      && (forall d :: Filter(sorted, KeyIs(RecordDate, d)) == Filter(history, KeyIs(RecordDate, d)))
  {
    SortByCorrect(history, RecordDate);
    if history == [] {
      assert SortBy(history, RecordDate) == [];
    }
  }

  /** `getChartData`: sorts the group's array in place by date and builds the weight series. */
  method GetChartData(history: array<ProgressRecord>) returns (chart: ChartData)
    modifies history
    ensures fresh(chart)
    ensures history[..] == SortBy(old(history[..]), RecordDate)
    ensures (chart.labels, chart.data) == ChartOf(history[..], WeightPoint)
  {
    SortInPlace(history, RecordDate);
    var (labels, data) := ChartOf(history[..], WeightPoint);
    chart := new ChartData(labels, data);
  }

  /** `getVolumeChartData`: the same, with each record's total volume. */
  method GetVolumeChartData(history: array<ProgressRecord>) returns (chart: ChartData)
    modifies history
    ensures fresh(chart)
    ensures history[..] == SortBy(old(history[..]), RecordDate)
    ensures (chart.labels, chart.data) == ChartOf(history[..], VolumePoint)
  {
    SortInPlace(history, RecordDate);
    var (labels, data) := ChartOf(history[..], VolumePoint);
    chart := new ChartData(labels, data);
  }

  /**
   * The data handling of `renderChart`: no chart (false) for missing or empty data; a one-point series gets
   * "Start" and 0 put in front, so every series drawn has at least two points; longer ones are untouched.
   */
  method RenderChart(chart: ChartData?) returns (shown: bool)
    modifies chart
    ensures shown <==> chart != null && |old(chart.data)| > 0
    ensures chart != null && |old(chart.data)| == 1 ==>
      chart.labels == [Start] + old(chart.labels) && chart.data == [Finite(0)] + old(chart.data)
    ensures chart != null && |old(chart.data)| != 1 ==>
      chart.labels == old(chart.labels) && chart.data == old(chart.data)
    ensures shown ==> |chart.data| >= 2
  {
    if chart == null || |chart.data| == 0 {
      return false;
    }
    if |chart.data| == 1 {
      chart.labels := [Start] + chart.labels;
      chart.data := [Finite(0)] + chart.data;
    }
    return true;
  }

  /** Every set weight of every record, in order; `Number(set.weight)` of a missing weight is NaN. */
  function AllWeights(history: seq<ProgressRecord>): (ws: seq<Option<nat>>)
    ensures forall w :: w in ws <==> exists r, s :: r in history && s in r.sets && s.weight == w
    decreases |history|
  {
    if history == [] then []
    else
      var tl := AllWeights(history[1..]);
      var hd := seq(|history[0].sets|, i requires 0 <= i < |history[0].sets| => history[0].sets[i].weight);
      assert forall w :: w in hd <==> exists s :: s in history[0].sets && s.weight == w by {
        forall w | w in hd ensures exists s :: s in history[0].sets && s.weight == w {
          var i :| 0 <= i < |hd| && hd[i] == w;
          assert history[0].sets[i] in history[0].sets;
        }
        forall w | exists s :: s in history[0].sets && s.weight == w ensures w in hd {
          var s :| s in history[0].sets && s.weight == w;
          var i :| 0 <= i < |history[0].sets| && history[0].sets[i] == s;
          assert hd[i] == w;
        }
      }
      assert history == [history[0]] + history[1..];
      hd + tl
  }

  /** The PR shown on an item: `Math.max` over every set weight of every record of the history. */
  function PersonalRecord(history: seq<ProgressRecord>): Number {
    MathMax(AllWeights(history))
  }

  /**
   * The PR is NaN when some set lacks a weight and -Infinity when there is no set at all; otherwise it is
   * at least every set weight of every record and equal to one of them.
   */
  lemma PersonalRecordMeaning(history: seq<ProgressRecord>)
    ensures PersonalRecord(history) == NaN <==> exists r, s :: r in history && s in r.sets && s.weight.None?
    ensures PersonalRecord(history) == NegInfinity <==> forall r :: r in history ==> r.sets == []
    ensures PersonalRecord(history).Finite? ==>
      && (forall r, s :: r in history && s in r.sets ==> s.weight.Some? && s.weight.value <= PersonalRecord(history).n)
      && (exists r, s :: r in history && s in r.sets && s.weight == Some(PersonalRecord(history).n))
  {
    var ws := AllWeights(history);
    if ws != [] {
      assert ws[0] in ws;
    }
    if exists r :: r in history && r.sets != [] {
      var r :| r in history && r.sets != [];
      assert r.sets[0] in r.sets;
      assert r.sets[0].weight in ws;
    }
    if PersonalRecord(history).Finite? {
      var m := PersonalRecord(history).n;
      forall r, s | r in history && s in r.sets ensures s.weight.Some? && s.weight.value <= m {
        assert s.weight in ws;
      }
    }
  }

  /** What an exercise item shows besides its charts: the PR, starting and current weight, the last sets and date. */
  datatype ItemSummary = ItemSummary(
    pr: Number, startingWeight: Option<nat>, currentWeight: Option<nat>, lastSets: seq<WorkSet>, lastDate: int)

  /**
   * `renderExerciseItem` as written: it reads the first set of the first and of the latest record, so an
   * empty history (or a record without sets there) throws.
   */
  function ItemStats(history: seq<ProgressRecord>): (r: Result<ItemSummary, JsError>)
    ensures r.Success? <==> history != [] && history[0].sets != [] && history[|history| - 1].sets != []
  {
    if history == [] then Failure(TypeError)
    else
      var first, latest := history[0], history[|history| - 1];
      if latest.sets == [] || first.sets == [] then Failure(TypeError)
      else Success(ItemSummary(PersonalRecord(history), first.sets[0].weight, latest.sets[0].weight, latest.sets, latest.date))
  }

  /**
   * As written the screen renders an item for every group, and a name whose only record logged weight 0
   * has an empty group, whose item throws.
   */
  lemma ZeroWeightRecordBreaksItem()
    ensures var records := [ProgressRecord("Plank", 0, [WorkSet(Some(0), Some(60), true)])];
      && "Plank" in Names(records)
      && History(records, "Plank") == []
      && ItemStats(History(records, "Plank")).Failure?
  {
    var records := [ProgressRecord("Plank", 0, [WorkSet(Some(0), Some(60), true)])];
    assert records[0] in records;
    assert records[..0] == [];
  }

  /** The names the list should show: those with at least one qualifying record. */
  function ListedNames(records: seq<ProgressRecord>): (names: set<string>)
    ensures names <= Names(records)
  {
    set r | r in records && Qualifies(r) :: r.name
  }

  /** Every listed name's item renders: its history is non-empty and every record in it has a set. */
  lemma ListedItemsRender(records: seq<ProgressRecord>, name: string)
    requires name in ListedNames(records)
    ensures ItemStats(History(records, name)).Success?
  {
    var r :| r in records && Qualifies(r) && r.name == name;
    var h := History(records, name);
    HistoryMembers(records, name);
    assert r in h;
    assert h[0] in h && h[|h| - 1] in h;
  }

  /**
   * `confirmDeleteExercise`: copies the progress object and deletes, key by key, every key whose record
   * has the chosen name. Exactly those keys go; every other key keeps its record.
   */
  method ConfirmDeleteExercise(progress: map<string, ProgressRecord>, target: string)
    returns (updated: map<string, ProgressRecord>)
    ensures updated.Keys == set k | k in progress && progress[k].name != target
    ensures forall k :: k in updated ==> updated[k] == progress[k]
  {
    updated := progress;
    var keys := progress.Keys;
    while keys != {}
      invariant keys <= progress.Keys
      invariant updated.Keys <= progress.Keys
      invariant forall k :: k in keys ==> k in updated
      invariant forall k :: k in progress && k !in keys ==> (k in updated <==> progress[k].name != target)
      invariant forall k :: k in updated ==> updated[k] == progress[k]
      decreases keys
    {
      var key :| key in keys;
      if updated[key].name == target {
        updated := updated - {key};
      }
      keys := keys - {key};
    }
  }
}
