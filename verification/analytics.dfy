/** The statistics page (`AnalyticsView`): a fourteen-day series of tasks
    due and completed per day, task counts per subject (the six largest),
    the completed/pending split, the five highest-scoring participants, the
    total of all points and the initials shown beside each name. */
module Analytics {
  import opened Common
  import opened Ordering
  import opened Dates
  import opened Tasks
  import opened Participants

  // ---------------------------------------------------------------------
  // Tasks per day over the last fourteen days
  // ---------------------------------------------------------------------

  /** One point of the series: the `MM-DD` label and the two tallies. */
  datatype DayPoint = DayPoint(date: string, completadas: nat, total: nat)

  /** A pre-seeded bucket, keyed by `YYYY-MM-DD`. */
  datatype Bucket = Bucket(date: string, completadas: nat, total: nat)

  /** The i-th day of the window (0 is thirteen days ago, 13 is today). */
  function WindowDay(today: Date, i: int): (d: Date)
    requires Valid(today) && 0 <= i < 14
    ensures Valid(d) && DayNumber(d) == DayNumber(today) - 13 + i
  {
    AddDays(today, i - 13)
  }

  /** The window stays within four-digit years when today does. */
  lemma WindowYear(today: Date, i: int)
    requires Valid(today) && 1 <= today.year <= 9999 && 0 <= i < 14
    ensures 0 <= WindowDay(today, i).year <= 9999
  {
    var d := WindowDay(today, i);
    assert DayNumber(today) - 365 <= DayNumber(d) <= DayNumber(today);
    NearbyYear(today, d);
    if d.year > today.year {
      EarlierYear(today, d);
    }
  }

  function WindowKey(today: Date, i: int): (k: string)
    requires Valid(today) && 1 <= today.year <= 9999 && 0 <= i < 14
  {
    WindowYear(today, i);
    IsoKey(WindowDay(today, i))
  }

  /** The `MM-DD` label of the i-th day. */
  function WindowLabel(today: Date, i: int): (l: string)
    requires Valid(today) && 1 <= today.year <= 9999 && 0 <= i < 14
    ensures l == MonthDay(WindowKey(today, i))
  {
    WindowYear(today, i);
    MonthDayLabel(WindowDay(today, i))
  }

  /** The fourteen keys are distinct, so the map holds fourteen buckets. */
  lemma WindowKeysDistinct(today: Date, i: int, j: int)
    requires Valid(today) && 1 <= today.year <= 9999 && 0 <= i < j < 14
    ensures WindowKey(today, i) != WindowKey(today, j)
  {
    WindowYear(today, i);
    WindowYear(today, j);
    if WindowKey(today, i) == WindowKey(today, j) {
      IsoKeyInjective(WindowDay(today, i), WindowDay(today, j));
    }
  }

  /** `dd/mm/yyyy`, the other text form a due date may have. */
  predicate IsDmy(s: string) {
    |s| == 10 && IsDigit(s[0]) && IsDigit(s[1]) && s[2] == '/' && IsDigit(s[3]) && IsDigit(s[4])
    && s[5] == '/' && DigitsAt(s, 6, 10)
  }

  /** The bucket key of a task's due date: none without a due date; a
      `dd/mm/yyyy` date is rewritten to `yyyy-mm-dd` as it stands (no
      check that the day exists); a `YYYY-MM-DD` date is read and written
      back; anything else gives no key. */
  function DueKey(t: Task): (k: Option<string>)
    ensures k.Some? ==> |k.value| == 10 && k.value[4] == '-' && k.value[7] == '-'
    ensures k.Some? ==> t.fechaEntrega.Some? && t.fechaEntrega.value != ""
  {
    match t.fechaEntrega
    case None => None
    case Some(s) =>
      if s == "" then None
      else if IsDmy(s) then Some(s[6..10] + "-" + s[3..5] + "-" + s[0..2])
      else match ParseYmd(s, '-')
        case Some(d) => Some(IsoKey(d))
        case None => None
  }

  /** `d/m/yyyy` written as the day-first form. */
  function DmyText(d: Date): string
    requires Valid(d) && 0 <= d.year <= 9999
  {
    Pad2(d.day) + "/" + Pad2(d.month) + "/" + Pad4(d.year)
  }

  /** A day-first due date lands in the bucket of the same day. */
  lemma DmyLandsOnIsoKey(t: Task, d: Date)
    requires Valid(d) && 0 <= d.year <= 9999
    requires t.fechaEntrega == Some(DmyText(d))
    ensures DueKey(t) == Some(IsoKey(d))
  {
    var s := DmyText(d);
    assert s[6..10] == Pad4(d.year);
    assert s[3..5] == Pad2(d.month);
    assert s[0..2] == Pad2(d.day);
  }

  /** A `YYYY-MM-DD` due date lands in its own bucket. */
  lemma IsoLandsOnIsoKey(t: Task, d: Date)
    requires Valid(d) && 0 <= d.year <= 9999
    requires t.fechaEntrega == Some(IsoKey(d))
    ensures DueKey(t) == Some(IsoKey(d))
  {
    ParseIsoKey(d);
    assert IsoKey(d)[2] == Pad4(d.year)[2];
  }

  function DueOn(key: string): Task -> bool {
    (t: Task) => DueKey(t) == Some(key)
  }

  function DoneOn(key: string): Task -> bool {
    (t: Task) => DueKey(t) == Some(key) && t.completada
  }


  /** The keys of the first `n` days of the window, oldest first. */
  function WindowKeys(today: Date, n: int): (keys: seq<string>)
    requires Valid(today) && 1 <= today.year <= 9999 && 0 <= n <= 14
    ensures |keys| == n
  {
    if n == 0 then [] else WindowKeys(today, n - 1) + [WindowKey(today, n - 1)]
  }

  lemma {:induction false} WindowKeysAt(today: Date, n: int, j: int)
    requires Valid(today) && 1 <= today.year <= 9999 && 0 <= j < n <= 14
    ensures WindowKeys(today, n)[j] == WindowKey(today, j)
    decreases n
  {
    if j < n - 1 {
      WindowKeysAt(today, n - 1, j);
    }
  }

  /** No day of the window shares its key with another. */
  lemma WindowKeysNoDup(today: Date)
    requires Valid(today) && 1 <= today.year <= 9999
    ensures NoDup(WindowKeys(today, 14))
  {
    var keys := WindowKeys(today, 14);
    forall i, j | 0 <= i < j < 14 ensures keys[i] != keys[j] {
      WindowKeysAt(today, 14, i);
      WindowKeysAt(today, 14, j);
      WindowKeysDistinct(today, i, j);
    }
  }

  /** One empty bucket per key. */
  ghost function EmptyBuckets(keys: seq<string>): map<string, Bucket> {
    map key | key in keys :: Bucket(key, 0, 0)
  }

  /** Seeding day `n` of the window extends both the keys and the map. */
  lemma SeedStep(today: Date, n: int, keys: seq<string>, buckets: map<string, Bucket>)
    requires Valid(today) && 1 <= today.year <= 9999 && 0 <= n < 14
    requires keys == WindowKeys(today, n) && buckets == EmptyBuckets(keys)
    ensures keys + [WindowKey(today, n)] == WindowKeys(today, n + 1)
    ensures buckets[WindowKey(today, n) := Bucket(WindowKey(today, n), 0, 0)]
            == EmptyBuckets(WindowKeys(today, n + 1))
  {
    EmptyBucketsSnoc(keys, WindowKey(today, n));
  }

  lemma EmptyBucketsSnoc(keys: seq<string>, key: string)
    ensures EmptyBuckets(keys)[key := Bucket(key, 0, 0)] == EmptyBuckets(keys + [key])
  {
  }

  /** The empty buckets for the window, keyed in insertion order, oldest
      day first. */
  method SeedBuckets(today: Date) returns (buckets: map<string, Bucket>, keys: seq<string>)
    requires Valid(today) && 1 <= today.year <= 9999
    ensures keys == WindowKeys(today, 14)
    ensures buckets == EmptyBuckets(keys)
  {
    buckets := map[];
    keys := [];
    var i := 13;
    while i >= 0
      invariant -1 <= i <= 13 && keys == WindowKeys(today, 13 - i)
      invariant buckets == EmptyBuckets(keys)
    {
      // The day `i` days before today is day `13 - i` of the window.
      var key := WindowKey(today, 13 - i);
      SeedStep(today, 13 - i, keys, buckets);
      buckets := buckets[key := Bucket(key, 0, 0)];
      keys := keys + [key];
      i := i - 1;
    }
  }

  /** The buckets for the given keys, each holding the tallies of `seen`. */
  ghost function Tallies(seen: seq<Task>, keys: set<string>): map<string, Bucket> {
    map key | key in keys :: Bucket(key, Count(seen, DoneOn(key)), Count(seen, DueOn(key)))
  }

  /** One more task in a bucket: one more due, and one more completed when
      the task is done. */
  function Added(b: Bucket, t: Task): Bucket {
    var b' := b.(total := b.total + 1);
    if t.completada then b'.(completadas := b'.completadas + 1) else b'
  }

  /** The loop body of the tally: the bucket of the task's due key, if
      there is one, takes the task in. */
  function Bumped(buckets: map<string, Bucket>, t: Task): map<string, Bucket> {
    var due := DueKey(t);
    if due.Some? && due.value in buckets then buckets[due.value := Added(buckets[due.value], t)]
    else buckets
  }

  /** Tallying one more task changes at most the bucket of its due key. */
  lemma TallyStep(seen: seq<Task>, t: Task, keys: set<string>)
    ensures Bumped(Tallies(seen, keys), t) == Tallies(seen + [t], keys)
  {
    var before := Tallies(seen, keys);
    var after := Tallies(seen + [t], keys);
    forall k | k in keys
      ensures after[k] == if DueKey(t) == Some(k) then Added(before[k], t) else before[k]
    {
      BucketStep(seen, t, k);
    }
  }

  lemma BucketStep(seen: seq<Task>, t: Task, k: string)
    ensures var b := Bucket(k, Count(seen, DoneOn(k)), Count(seen, DueOn(k)));
            Bucket(k, Count(seen + [t], DoneOn(k)), Count(seen + [t], DueOn(k)))
            == if DueKey(t) == Some(k) then Added(b, t) else b
  {
    CountSnoc(seen, t, DoneOn(k));
    CountSnoc(seen, t, DueOn(k));
  }

  /** Every count is zero before any task is seen. */
  lemma TalliesEmpty(keys: set<string>)
    ensures Tallies([], keys) == map key | key in keys :: Bucket(key, 0, 0)
  {
  }

  /** Each task whose due key names a bucket adds one to that bucket's
      total, and one to its completed count when it is done; a task due
      outside the window is skipped. */
  method Tally(tasks: seq<Task>, empty: map<string, Bucket>) returns (buckets: map<string, Bucket>)
    requires forall key :: key in empty ==> empty[key] == Bucket(key, 0, 0)
    ensures buckets == Tallies(tasks, empty.Keys)
  {
    buckets := empty;
    TalliesEmpty(empty.Keys);
    assert buckets == Tallies(tasks[..0], empty.Keys);
    for k := 0 to |tasks|
      invariant buckets == Tallies(tasks[..k], empty.Keys)
    {
      TallyStep(tasks[..k], tasks[k], empty.Keys);
      buckets := Bumped(buckets, tasks[k]);
      assert tasks[..k + 1] == tasks[..k] + [tasks[k]];
    }
    assert tasks[..|tasks|] == tasks;
  }

  /** `key.slice(5)`: the key without its `YYYY-` prefix (empty when the
      key is shorter). */
  function MonthDay(key: string): (l: string)
    ensures |key| >= 5 ==> key == key[..5] + l
    ensures |key| < 5 ==> l == ""
  {
    if |key| >= 5 then key[5..] else ""
  }

  /** The point a bucket becomes in the series. */
  function PointOf(b: Bucket): DayPoint {
    DayPoint(MonthDay(b.date), b.completadas, b.total)
  }

  /** The buckets of `keys`, in that order, each read as a point. */
  method ReadSeries(buckets: map<string, Bucket>, keys: seq<string>) returns (series: seq<DayPoint>)
    requires forall k :: k in keys ==> k in buckets
    ensures |series| == |keys|
    ensures forall m :: 0 <= m < |keys| ==> series[m] == PointOf(buckets[keys[m]])
  {
    series := [];
    for j := 0 to |keys|
      invariant |series| == j
      invariant forall m :: 0 <= m < j ==> series[m] == PointOf(buckets[keys[m]])
    {
      series := series + [PointOf(buckets[keys[j]])];
    }
  }

  /** The series for `keys`: each day's label and its two tallies. */
  ghost predicate Reads(series: seq<DayPoint>, tasks: seq<Task>, keys: seq<string>) {
    |series| == |keys|
    && forall m :: 0 <= m < |keys| ==>
         series[m] == DayPoint(MonthDay(keys[m]), Count(tasks, DoneOn(keys[m])), Count(tasks, DueOn(keys[m])))
  }

  /** Read off tallied buckets, the series holds each day's tallies. */
  lemma ReadTallies(series: seq<DayPoint>, tasks: seq<Task>, buckets: map<string, Bucket>, keys: seq<string>)
    requires forall k :: k in keys ==> k in buckets
    requires forall k :: k in buckets ==>
               buckets[k] == Bucket(k, Count(tasks, DoneOn(k)), Count(tasks, DueOn(k)))
    requires |series| == |keys|
    requires forall m :: 0 <= m < |keys| ==> series[m] == PointOf(buckets[keys[m]])
    ensures Reads(series, tasks, keys)
  {
    forall m | 0 <= m < |keys|
      ensures series[m] == DayPoint(MonthDay(keys[m]), Count(tasks, DoneOn(keys[m])), Count(tasks, DueOn(keys[m])))
    {
      assert keys[m] in keys;
    }
  }

  /** `tasksPerDay`: fourteen points for the fourteen days up to today,
      oldest first, each counting the tasks due that day and those of them
      completed. A task is counted at most once, so the totals add up to
      at most the number of tasks. */
  method TasksPerDay(tasks: seq<Task>, today: Date) returns (series: seq<DayPoint>)
    requires Valid(today) && 1 <= today.year <= 9999
    ensures |series| == 14
    ensures forall i :: 0 <= i < 14 ==>
              series[i] == DayPoint(WindowLabel(today, i),
                                    Count(tasks, DoneOn(WindowKey(today, i))),
                                    Count(tasks, DueOn(WindowKey(today, i))))
    ensures forall i :: 0 <= i < 14 ==> series[i].completadas <= series[i].total
    ensures SumTotals(series) <= |tasks|
  {
    var empty, keys := SeedBuckets(today);
    var buckets := Tally(tasks, empty);
    series := ReadSeries(buckets, keys);
    ReadTallies(series, tasks, buckets, keys);
    WindowKeysNoDup(today);
    SeriesFacts(tasks, series, keys);
    forall i | 0 <= i < 14
      ensures series[i] == DayPoint(WindowLabel(today, i),
                                    Count(tasks, DoneOn(WindowKey(today, i))),
                                    Count(tasks, DueOn(WindowKey(today, i))))
    {
      WindowKeysAt(today, 14, i);
    }
  }

  /** The sum of the daily totals of a series. */
  function SumTotals(series: seq<DayPoint>): nat {
    if series == [] then 0 else series[0].total + SumTotals(series[1..])
  }

  /** Over distinct keys, no day completes more tasks than are due on it,
      and the totals add up to at most the number of tasks. */
  lemma SeriesFacts(tasks: seq<Task>, series: seq<DayPoint>, keys: seq<string>)
    requires Reads(series, tasks, keys) && NoDup(keys)
    ensures forall i :: 0 <= i < |series| ==> series[i].completadas <= series[i].total
    ensures SumTotals(series) <= |tasks|
  {
    forall i | 0 <= i < |series| ensures series[i].completadas <= series[i].total {
      CountImplies(tasks, DoneOn(keys[i]), DueOn(keys[i]));
    }
    SumTotalsIsSumDue(tasks, series, keys);
    SumDueAtMostTasks(tasks, keys);
  }

  /** Counting with a stronger condition counts no more. */
  lemma {:induction false} CountImplies<T>(s: seq<T>, p: T -> bool, q: T -> bool)
    requires forall x :: p(x) ==> q(x)
    ensures Count(s, p) <= Count(s, q)
  {
    if s != [] {
      CountImplies(s[1..], p, q);
    }
  }

  /** The tasks due on each of the keys, added up. */
  ghost function SumDue(tasks: seq<Task>, keys: seq<string>): nat {
    if keys == [] then 0 else Count(tasks, DueOn(keys[0])) + SumDue(tasks, keys[1..])
  }

  lemma {:induction false} SumTotalsIsSumDue(tasks: seq<Task>, series: seq<DayPoint>, keys: seq<string>)
    requires Reads(series, tasks, keys)
    ensures SumTotals(series) == SumDue(tasks, keys)
  {
    if keys != [] {
      assert Reads(series[1..], tasks, keys[1..]);
      SumTotalsIsSumDue(tasks, series[1..], keys[1..]);
    }
  }

  /** How many of the keys are the task's due key. */
  ghost function Hits(t: Task, keys: seq<string>): nat {
    if keys == [] then 0 else (if DueOn(keys[0])(t) then 1 else 0) + Hits(t, keys[1..])
  }

  /** Distinct keys hold a task at most once. */
  lemma {:induction false} HitsAtMostOne(t: Task, keys: seq<string>)
    requires NoDup(keys)
    ensures Hits(t, keys) <= 1
    ensures Hits(t, keys) == 1 ==> DueKey(t).Some? && DueKey(t).value in keys
  {
    if keys != [] {
      var rest := keys[1..];
      assert NoDup(rest);
      HitsAtMostOne(t, rest);
      assert keys[0] !in rest by {
        forall j | 0 <= j < |rest| ensures rest[j] != keys[0] {
          assert rest[j] == keys[j + 1];
        }
      }
    }
  }

  lemma {:induction false} SumDueCons(t: Task, rest: seq<Task>, keys: seq<string>)
    ensures SumDue([t] + rest, keys) == Hits(t, keys) + SumDue(rest, keys)
  {
    if keys != [] {
      SumDueCons(t, rest, keys[1..]);
      FilterCons(t, rest, DueOn(keys[0]));
    }
  }

  lemma {:induction false} SumDueEmpty(keys: seq<string>)
    ensures SumDue([], keys) == 0
  {
    if keys != [] {
      SumDueEmpty(keys[1..]);
    }
  }

  /** Each task is counted under at most one of distinct keys. */
  lemma {:induction false} SumDueAtMostTasks(tasks: seq<Task>, keys: seq<string>)
    requires NoDup(keys)
    ensures SumDue(tasks, keys) <= |tasks|
  {
    if tasks == [] {
      SumDueEmpty(keys);
    } else {
      assert tasks == [tasks[0]] + tasks[1..];
      SumDueCons(tasks[0], tasks[1..], keys);
      HitsAtMostOne(tasks[0], keys);
      SumDueAtMostTasks(tasks[1..], keys);
    }
  }

  // ---------------------------------------------------------------------
  // Tasks per subject, the six largest
  // ---------------------------------------------------------------------

  datatype SubjectCount = SubjectCount(name: string, value: nat)

  /** `t.materia || "Sin materia"` */
  function Label(t: Task): string {
    if t.materia.Some? && t.materia.value != "" then t.materia.value else "Sin materia"
  }

  function LabelIs(name: string): Task -> bool {
    (t: Task) => Label(t) == name
  }

  /** Sorting by `b.value - a.value` is sorting by the negated count. */
  function ByCountDesc(e: SubjectCount): int {
    -(e.value as int)
  }

  /** The labels of `seen`, each once, in the order they first occur. */
  ghost function SeenLabels(seen: seq<Task>): seq<string> {
    if seen == [] then []
    else
      var before := SeenLabels(seen[..|seen| - 1]);
      var l := Label(seen[|seen| - 1]);
      if l in before then before else before + [l]
  }

  /** How many tasks of `seen` carry each label seen so far. */
  ghost function LabelTallies(seen: seq<Task>): map<string, nat> {
    map l | l in SeenLabels(seen) :: Count(seen, LabelIs(l))
  }

  /** The loop body of the subject tally: `counts[m] = (counts[m] || 0) + 1`,
      remembering the order in which labels first appear. */
  function CountedIn(names: seq<string>, counts: map<string, nat>, t: Task): (seq<string>, map<string, nat>) {
    var m := Label(t);
    if m in counts then (names, counts[m := counts[m] + 1]) else (names + [m], counts[m := 1])
  }

  lemma {:induction false} SeenLabelsFacts(seen: seq<Task>)
    ensures NoDup(SeenLabels(seen))
    ensures forall l :: l in SeenLabels(seen) <==> exists t :: t in seen && Label(t) == l
  {
    if seen != [] {
      var init := seen[..|seen| - 1];
      SeenLabelsFacts(init);
      assert seen == init + [seen[|seen| - 1]];
      assert forall t :: t in seen <==> t in init || t == seen[|seen| - 1];
    }
  }

  lemma SeenLabelsSnoc(seen: seq<Task>, t: Task)
    ensures SeenLabels(seen + [t])
            == if Label(t) in SeenLabels(seen) then SeenLabels(seen) else SeenLabels(seen) + [Label(t)]
  {
    var after := seen + [t];
    assert after[..|after| - 1] == seen;
    assert after[|after| - 1] == t;
  }

  /** A label not seen yet has no task. */
  lemma UnseenCountsZero(seen: seq<Task>, l: string)
    requires l !in SeenLabels(seen)
    ensures Count(seen, LabelIs(l)) == 0
  {
    SeenLabelsFacts(seen);
    FilterDropsAll(seen, LabelIs(l));
  }

  /** One more task adds one to its own label's count, starting it at one
      when the label is new. */
  lemma TalliesSnoc(seen: seq<Task>, t: Task)
    ensures var before := LabelTallies(seen);
            var m := Label(t);
            LabelTallies(seen + [t]) == if m in before then before[m := before[m] + 1] else before[m := 1]
  {
    var m := Label(t);
    var before := LabelTallies(seen);
    var after := LabelTallies(seen + [t]);
    var target := if m in before then before[m := before[m] + 1] else before[m := 1];
    SeenLabelsSnoc(seen, t);
    assert after.Keys == target.Keys;
    forall l | l in after.Keys
      ensures after[l] == target[l]
    {
      LabelCountStep(seen, t, l);
    }
  }

  /** One more task adds one to the count of its own label only. */
  lemma LabelCountStep(seen: seq<Task>, t: Task, l: string)
    ensures Count(seen + [t], LabelIs(l))
            == if l != Label(t) then Count(seen, LabelIs(l))
               else if l in SeenLabels(seen) then Count(seen, LabelIs(l)) + 1
               else 1
  {
    CountSnoc(seen, t, LabelIs(l));
    if l == Label(t) && l !in SeenLabels(seen) {
      UnseenCountsZero(seen, l);
    }
  }

  /** Counting one more task keeps the names and the counts in step. */
  lemma SubjectStep(seen: seq<Task>, t: Task)
    ensures CountedIn(SeenLabels(seen), LabelTallies(seen), t) == (SeenLabels(seen + [t]), LabelTallies(seen + [t]))
  {
    SeenLabelsSnoc(seen, t);
    TalliesSnoc(seen, t);
  }

  /** The per-label counts, with each label in the order it first occurs. */
  method CountSubjects(tasks: seq<Task>) returns (names: seq<string>, counts: map<string, nat>)
    ensures names == SeenLabels(tasks) && counts == LabelTallies(tasks)
  {
    names := [];
    counts := map[];
    assert tasks[..0] == [];
    for k := 0 to |tasks|
      invariant names == SeenLabels(tasks[..k]) && counts == LabelTallies(tasks[..k])
    {
      SubjectStep(tasks[..k], tasks[k]);
      names, counts := CountedIn(names, counts, tasks[k]).0, CountedIn(names, counts, tasks[k]).1;
      assert tasks[..k + 1] == tasks[..k] + [tasks[k]];
    }
    assert tasks[..|tasks|] == tasks;
  }

  /** `Object.entries(counts).map(([name, value]) => ({ name, value }))` */
  method Entries(names: seq<string>, counts: map<string, nat>) returns (entries: seq<SubjectCount>)
    requires forall n :: n in names ==> n in counts
    ensures |entries| == |names|
    ensures forall m :: 0 <= m < |names| ==> entries[m] == SubjectCount(names[m], counts[names[m]])
  {
    entries := [];
    for j := 0 to |names|
      invariant |entries| == j
      invariant forall m :: 0 <= m < j ==> entries[m] == SubjectCount(names[m], counts[names[m]])
    {
      entries := entries + [SubjectCount(names[j], counts[names[j]])];
    }
  }

  /** `tasksBySubject`: at most six subjects, the largest counts first;
      every count is the number of tasks with that label, no label twice,
      and a label left out counts no more than the sixth one kept. */
  method TasksBySubject(tasks: seq<Task>) returns (top: seq<SubjectCount>)
    ensures |top| <= 6
    ensures forall i, j :: 0 <= i < j < |top| ==> top[i].value >= top[j].value
    ensures forall i :: 0 <= i < |top| ==>
              top[i].value == Count(tasks, LabelIs(top[i].name))
              && exists t :: t in tasks && Label(t) == top[i].name
    ensures forall i, j :: 0 <= i < j < |top| ==> top[i].name != top[j].name
    ensures forall t :: t in tasks && (forall i :: 0 <= i < |top| ==> top[i].name != Label(t)) ==>
              |top| == 6 && Count(tasks, LabelIs(Label(t))) <= top[5].value
    ensures top == TopN(SubjectEntries(tasks), ByCountDesc, 6)
  {
    var names, counts := CountSubjects(tasks);
    var entries := Entries(names, counts);
    EntriesFacts(tasks, names, entries);
    assert entries == SubjectEntries(tasks);
    top := TopN(entries, ByCountDesc, 6);
    TopFacts(tasks, entries, top);
  }

  /** The entries before sorting: each label once, in the order it first
      occurs, with its count. */
  ghost function SubjectEntries(tasks: seq<Task>): seq<SubjectCount> {
    var names := SeenLabels(tasks);
    seq(|names|, m requires 0 <= m < |names| => SubjectCount(names[m], Count(tasks, LabelIs(names[m]))))
  }

  /** Subjects with equal counts keep the order in which they first occur:
      of the subjects with any one count (rank `k` is the negated count),
      those shown are the first ones. */
  lemma SubjectTiesKeepFirstSeenOrder(tasks: seq<Task>, k: int)
    ensures var kept := OfRank(TopN(SubjectEntries(tasks), ByCountDesc, 6), ByCountDesc, k);
            var all := OfRank(SubjectEntries(tasks), ByCountDesc, k);
            |kept| <= |all| && kept == all[..|kept|]
  {
    TopNKeepsTieOrder(SubjectEntries(tasks), ByCountDesc, 6, k);
  }

  /** Each entry holds a label some task has, with its count; no label comes
      twice; every task's label has an entry. */
  ghost predicate Tallied(tasks: seq<Task>, entries: seq<SubjectCount>) {
    (forall e :: e in entries ==>
       e.value == Count(tasks, LabelIs(e.name)) && exists t :: t in tasks && Label(t) == e.name)
    && (forall i, j :: 0 <= i < j < |entries| ==> entries[i].name != entries[j].name)
    && (forall t :: t in tasks ==> SubjectCount(Label(t), Count(tasks, LabelIs(Label(t)))) in entries)
  }

  lemma EntriesFacts(tasks: seq<Task>, names: seq<string>, entries: seq<SubjectCount>)
    requires names == SeenLabels(tasks)
    requires |entries| == |names|
    requires forall m :: 0 <= m < |names| ==> entries[m] == SubjectCount(names[m], LabelTallies(tasks)[names[m]])
    ensures Tallied(tasks, entries)
  {
    SeenLabelsFacts(tasks);
    forall e | e in entries
      ensures e.value == Count(tasks, LabelIs(e.name)) && exists t :: t in tasks && Label(t) == e.name
    {
      var m :| 0 <= m < |entries| && entries[m] == e;
      assert names[m] in names;
    }
    forall i, j | 0 <= i < j < |entries| ensures entries[i].name != entries[j].name {
      assert entries[i].name == names[i] && entries[j].name == names[j];
    }
    forall t | t in tasks
      ensures SubjectCount(Label(t), Count(tasks, LabelIs(Label(t)))) in entries
    {
      assert Label(t) in names;
      var m :| 0 <= m < |names| && names[m] == Label(t);
      assert entries[m] == SubjectCount(Label(t), Count(tasks, LabelIs(Label(t))));
    }
  }

  /** What sorting and cutting to six keeps of the entries. */
  lemma TopFacts(tasks: seq<Task>, entries: seq<SubjectCount>, top: seq<SubjectCount>)
    requires Tallied(tasks, entries)
    requires top == TopN(entries, ByCountDesc, 6)
    ensures forall i :: 0 <= i < |top| ==>
              top[i].value == Count(tasks, LabelIs(top[i].name))
              && exists t :: t in tasks && Label(t) == top[i].name
    ensures forall i, j :: 0 <= i < j < |top| ==> top[i].name != top[j].name
    ensures forall t :: t in tasks && (forall i :: 0 <= i < |top| ==> top[i].name != Label(t)) ==>
              |top| == 6 && Count(tasks, LabelIs(Label(t))) <= top[5].value
  {
    forall i | 0 <= i < |top| ensures top[i] in entries {
      SubMultisetMember(top, entries, i);
    }
    TopNamesDistinct(tasks, entries, top);
    forall t | t in tasks && (forall i :: 0 <= i < |top| ==> top[i].name != Label(t))
      ensures |top| == 6 && Count(tasks, LabelIs(Label(t))) <= top[5].value
    {
      LeftOut(tasks, entries, top, t);
    }
  }

  lemma SubMultisetMember<T>(a: seq<T>, b: seq<T>, i: int)
    requires multiset(a) <= multiset(b) && 0 <= i < |a|
    ensures a[i] in b
  {
    assert a[i] in multiset(a);
  }

  lemma TopNamesDistinct(tasks: seq<Task>, entries: seq<SubjectCount>, top: seq<SubjectCount>)
    requires Tallied(tasks, entries)
    requires multiset(top) <= multiset(entries)
    requires forall i :: 0 <= i < |top| ==> top[i] in entries
    ensures forall i, j :: 0 <= i < j < |top| ==> top[i].name != top[j].name
  {
    assert NoDup(entries);
    forall i, j | 0 <= i < j < |top| ensures top[i].name != top[j].name {
      if top[i].name == top[j].name {
        EntryByName(tasks, entries, top[i], top[j]);
        TwiceCountsTwice(top, i, j);
        NoDupAtMostOnce(entries, top[i]);
      }
    }
  }

  lemma LeftOut(tasks: seq<Task>, entries: seq<SubjectCount>, top: seq<SubjectCount>, t: Task)
    requires Tallied(tasks, entries)
    requires top == TopN(entries, ByCountDesc, 6)
    requires t in tasks && forall i :: 0 <= i < |top| ==> top[i].name != Label(t)
    ensures |top| == 6 && Count(tasks, LabelIs(Label(t))) <= top[5].value
  {
    var x := SubjectCount(Label(t), Count(tasks, LabelIs(Label(t))));
    assert x in entries;
    assert x !in top;
    assert multiset(top)[x] == 0 < multiset(entries)[x];
    assert ByCountDesc(top[5]) <= ByCountDesc(x);
  }

  /** Entries with the same name are the same entry. */
  lemma EntryByName(tasks: seq<Task>, entries: seq<SubjectCount>, a: SubjectCount, b: SubjectCount)
    requires Tallied(tasks, entries) && a in entries && b in entries && a.name == b.name
    ensures a == b
  {
  }

  // ---------------------------------------------------------------------
  // Completed and pending
  // ---------------------------------------------------------------------

  function IsDone(t: Task): bool { t.completada }

  function IsPending(t: Task): bool { !t.completada }

  /** `tasksStatus`: the completed tasks, and all the others. */
  function TasksStatus(tasks: seq<Task>): (r: (nat, nat))
    ensures r.0 == Count(tasks, IsDone) && r.1 == Count(tasks, IsPending)
    ensures r.0 + r.1 == |tasks|
  {
    DoneAndPending(tasks);
    (Count(tasks, IsDone), |tasks| - Count(tasks, IsDone))
  }

  /** Every task is either completed or pending. */
  lemma {:induction false} DoneAndPending(tasks: seq<Task>)
    ensures Count(tasks, IsDone) + Count(tasks, IsPending) == |tasks|
  {
    if tasks != [] {
      DoneAndPending(tasks[1..]);
    }
  }

  // ---------------------------------------------------------------------
  // Leaderboard, points total and initials
  // ---------------------------------------------------------------------

  /** Sorting by `b.points - a.points` is sorting by negated points. */
  function ByPointsDesc(p: Participant): int {
    -p.points
  }

  /** `[...participants].sort((a, b) => b.points - a.points).slice(0, 5)`:
      at most five participants, highest points first, taken from the list
      (which itself is not reordered), and nobody left out has more points
      than the fifth. */
  function TopParticipants(ps: seq<Participant>): (r: seq<Participant>)
    ensures |r| == Min(5, |ps|)
    ensures forall i, j :: 0 <= i < j < |r| ==> r[i].points >= r[j].points
    ensures multiset(r) <= multiset(ps)
    ensures forall x :: x in ps && multiset(r)[x] < multiset(ps)[x] ==> |r| == 5 && x.points <= r[4].points
  {
    TopN(ps, ByPointsDesc, 5)
  }

  /** Ties keep list order: of the participants with any one score (rank
      `k` is the negated score), those shown are the first ones with that
      score in the list, in list order. */
  lemma TopParticipantsKeepListOrder(ps: seq<Participant>, k: int)
    ensures var kept := OfRank(TopParticipants(ps), ByPointsDesc, k);
            var all := OfRank(ps, ByPointsDesc, k);
            |kept| <= |all| && kept == all[..|kept|]
  {
    TopNKeepsTieOrder(ps, ByPointsDesc, 5, k);
  }

  /** `participants.reduce((s, p) => s + p.points, 0)` */
  function TotalPoints(ps: seq<Participant>): int {
    if ps == [] then 0 else ps[0].points + TotalPoints(ps[1..])
  }

  /** The total is additive over any split of the list. */
  lemma {:induction false} TotalPointsConcat(a: seq<Participant>, b: seq<Participant>)
    ensures TotalPoints(a + b) == TotalPoints(a) + TotalPoints(b)
  {
    if a == [] {
      assert a + b == b;
    } else {
      assert (a + b)[0] == a[0];
      assert (a + b)[1..] == a[1..] + b;
      TotalPointsConcat(a[1..], b);
    }
  }

  /** Adding a participant (who starts at zero) leaves the total as it was,
      and the sample rows add up to 2980. */
  lemma TotalPointsFacts(ps: seq<Participant>, p: ParticipantInput, freshId: string, id1: string, id2: string, id3: string)
    ensures TotalPoints([NewParticipant(p, freshId)] + ps) == TotalPoints(ps)
    ensures TotalPoints(Sample(id1, id2, id3)) == 2980
  {
    var x := NewParticipant(p, freshId);
    assert ([x] + ps)[0] == x && ([x] + ps)[1..] == ps;
    var s := Sample(id1, id2, id3);
    assert TotalPoints(s[2..]) == 760 by {
      assert s[2..][1..] == [];
    }
    assert s[1..][1..] == s[2..];
    assert s[1..][0] == s[1];
  }

  /** The first character of a word, or nothing for an empty word (where
      `s[0]` is `undefined` and `join` writes nothing). */
  function Head(w: string): (r: string)
    ensures |r| <= 1 && (r != [] <==> w != []) && (r != [] ==> r[0] == w[0])
  {
    if w == [] then [] else [w[0]]
  }

  /** `name.split(" ").map(s => s[0]).slice(0, 2).join("")`: the first
      characters of the first two space-separated words. */
  function Initials(name: string): (r: string)
    ensures |r| <= 2 && ' ' !in r
    ensures name != [] && name[0] != ' ' ==> r != [] && r[0] == name[0]
  {
    var words := Split(name, ' ');
    var first := Head(words[0]);
    assert words[0] in words;
    FirstPieceIsPrefixUpToSep(name, ' ');
    if |words| > 1 then
      assert words[1] in words;
      first + Head(words[1])
    else first
  }

  /** Splitting at the first separator: the word before it, then the
      pieces of the rest. */
  lemma {:induction false} SplitAtFirst(w: string, rest: string, sep: char)
    requires sep !in w
    ensures Split(w + [sep] + rest, sep) == [w] + Split(rest, sep)
  {
    if w == [] {
      assert w + [sep] + rest == [sep] + rest;
      assert ([sep] + rest)[1..] == rest;
    } else {
      var s := w + [sep] + rest;
      assert s[0] == w[0] && s[1..] == w[1..] + [sep] + rest;
      SplitAtFirst(w[1..], rest, sep);
      assert [w[0]] + w[1..] == w;
    }
  }

  /** A word without the separator is one piece. */
  lemma {:induction false} SplitWhole(w: string, sep: char)
    requires sep !in w
    ensures Split(w, sep) == [w]
  {
    if w != [] {
      SplitWhole(w[1..], sep);
      assert [w[0]] + w[1..] == w;
    }
  }

  /** A name without a space gives its first character, if any. */
  lemma InitialsOfOneWord(w: string)
    requires ' ' !in w
    ensures Initials(w) == Head(w)
  {
    SplitWhole(w, ' ');
  }

  /** A name with a space gives the first character of the piece before the
      first space and of the piece after it; an empty piece (a leading or
      doubled space) gives nothing, and whatever follows a second space is
      ignored ("María Pérez" gives "MP", "Ana María López" gives "AM"). */
  lemma InitialsOfFirstTwoWords(first: string, second: string, rest: string)
    requires ' ' !in first && ' ' !in second && (rest == [] || rest[0] == ' ')
    ensures Initials(first + [' '] + second + rest) == Head(first) + Head(second)
  {
    assert first + [' '] + second + rest == first + [' '] + (second + rest);
    SplitAtFirst(first, second + rest, ' ');
    if rest == [] {
      assert second + rest == second;
      SplitWhole(second, ' ');
    } else {
      assert second + rest == second + [' '] + rest[1..];
      SplitAtFirst(second, rest[1..], ' ');
    }
  }
}
