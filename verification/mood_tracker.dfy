/**
  The mood tracker's analytics over the journal of entries: adding an
  entry, the count of distinct days with an entry, the current day streak,
  the average, best and worst score, the trend window of the chart and the
  per-score distribution. Every statistic is recomputed from the whole
  journal. A timestamp is represented by its local calendar-day number.
 */
module MoodTracker {

  /** Label of each score: score `s` has label `MoodLabels[s - 1]`. */
  const MoodLabels: seq<string> := ["Terrible", "Bad", "Okay", "Good", "Great"]

  /** One journal entry; `day` is the local calendar day of its creation time. */
  datatype MoodEntry = MoodEntry(id: string, moodScore: int, moodLabel: string, notes: string, day: int)

  predicate ValidScore(s: int)
  {
    1 <= s <= 5
  }

  /** Every entry has a score in 1..5 and the label that score selects. */
  predicate WellFormed(entries: seq<MoodEntry>)
  {
    forall i :: 0 <= i < |entries| ==>
      ValidScore(entries[i].moodScore) && entries[i].moodLabel == MoodLabels[entries[i].moodScore - 1]
  }

  /** Different scores have different labels, so a label determines its score. */
  lemma LabelsAreDistinct()
    ensures forall a, b :: 0 <= a < b < |MoodLabels| ==> MoodLabels[a] != MoodLabels[b]
  {
  }

  /** In a well-formed journal, entries with the same label have the same score. */
  lemma LabelDeterminesScore(entries: seq<MoodEntry>, i: nat, j: nat)
    requires WellFormed(entries) && i < |entries| && j < |entries|
    requires entries[i].moodLabel == entries[j].moodLabel
    ensures entries[i].moodScore == entries[j].moodScore
  {
    LabelsAreDistinct();
  }

  /**
    Saving the form: a new entry with the chosen score, its label, the
    notes, a fresh id and today's date goes last; earlier entries are kept
    as they are. The form only ever holds a score from 1 to 5.
   */
  function AddMood(entries: seq<MoodEntry>, score: int, notes: string, id: string, today: int): (r: seq<MoodEntry>)
    requires ValidScore(score)
    ensures |r| == |entries| + 1 && r[..|entries|] == entries
    ensures r[|entries|].moodScore == score && r[|entries|].moodLabel == MoodLabels[score - 1]
    ensures r[|entries|].notes == notes && r[|entries|].id == id && r[|entries|].day == today
    ensures WellFormed(entries) ==> WellFormed(r)
  {
    entries + [MoodEntry(id, score, MoodLabels[score - 1], notes, today)]
  }

  // ---------------------------------------------------------------------
  // Distinct days

  /** The set of days that have at least one entry. */
  function DaySet(entries: seq<MoodEntry>): (days: set<int>)
    ensures forall d :: d in days <==> exists i :: 0 <= i < |entries| && entries[i].day == d
  {
    if |entries| == 0 then {}
    else
      var init := entries[..|entries| - 1];
      var rest := DaySet(init);
      assert forall i :: 0 <= i < |init| ==> init[i] == entries[i];
      rest + {entries[|entries| - 1].day}
  }

  /** At most one logged day per entry, and at least one day once there is an entry. */
  lemma {:induction false} DaySetSize(entries: seq<MoodEntry>)
    ensures |DaySet(entries)| <= |entries|
    ensures |entries| > 0 ==> |DaySet(entries)| > 0
  {
    if |entries| > 0 {
      var init := entries[..|entries| - 1];
      DaySetSize(init);
      assert DaySet(entries) == DaySet(init) + {entries[|entries| - 1].day};
      assert entries[|entries| - 1].day in DaySet(entries);
    }
  }

  /**
    Number of distinct days with an entry ("mindful days"): at most one
    per entry, and zero exactly for an empty journal.
   */
  function TotalDays(entries: seq<MoodEntry>): (n: nat)
    ensures n <= |entries|
    ensures n == 0 <==> |entries| == 0
  {
    DaySetSize(entries);
    |DaySet(entries)|
  }

  /** Another entry on a day already logged adds no day. */
  lemma SameDayEntryKeepsTotalDays(entries: seq<MoodEntry>, e: MoodEntry)
    requires e.day in DaySet(entries)
    ensures DaySet(entries + [e]) == DaySet(entries)
    ensures TotalDays(entries + [e]) == TotalDays(entries)
  {
    assert (entries + [e])[..|entries|] == entries;
  }

  /** The newest day that has an entry. */
  function NewestDay(entries: seq<MoodEntry>): (d: int)
    requires |entries| > 0
    ensures exists i :: 0 <= i < |entries| && entries[i].day == d
    ensures forall i :: 0 <= i < |entries| ==> entries[i].day <= d
  {
    var last := entries[|entries| - 1].day;
    if |entries| == 1 then last
    else
      var init := entries[..|entries| - 1];
      var rest := NewestDay(init);
      assert forall i :: 0 <= i < |init| ==> init[i] == entries[i];
      if last > rest then last else rest
  }

  /** The newest day is the largest of the logged days. */
  lemma NewestDayIsMaxDay(entries: seq<MoodEntry>)
    requires |entries| > 0
    ensures NewestDay(entries) in DaySet(entries)
    ensures forall x :: x in DaySet(entries) ==> x <= NewestDay(entries)
  {
  }

  /** The newest day depends only on the set of days. */
  lemma NewestDayOfSameDays(a: seq<MoodEntry>, b: seq<MoodEntry>)
    requires |a| > 0 && |b| > 0 && DaySet(a) == DaySet(b)
    ensures NewestDay(a) == NewestDay(b)
  {
    NewestDayIsMaxDay(a);
    NewestDayIsMaxDay(b);
  }

  // ---------------------------------------------------------------------
  // The distinct days, sorted newest first

  predicate StrictlyDescending(u: seq<int>)
  {
    forall i, j :: 0 <= i < j < |u| ==> u[i] > u[j]
  }

  /** Inserts a day into a strictly descending list, unless it is already there. */
  function InsertDescending(u: seq<int>, x: int): (r: seq<int>)
    requires StrictlyDescending(u)
    ensures StrictlyDescending(r)
    ensures forall d :: d in r <==> d in u || d == x
    ensures x in u ==> |r| == |u|
    ensures x !in u ==> |r| == |u| + 1
  {
    if |u| == 0 then [x]
    else if x == u[0] then u
    else if x > u[0] then
      assert forall j :: 0 <= j < |u| ==> u[j] <= u[0];
      assert x !in u;
      ConsDescending(x, u);
      [x] + u
    else
      var rest := u[1..];
      assert u == [u[0]] + rest;
      assert x in u <==> x in rest;
      var tail := InsertDescending(rest, x);
      assert forall d :: d in rest ==> d < u[0];
      ConsDescending(u[0], tail);
      [u[0]] + tail
  }

  /** A head above every element of a strictly descending tail keeps the list strictly descending. */
  lemma ConsDescending(h: int, tail: seq<int>)
    requires StrictlyDescending(tail) && forall d :: d in tail ==> d < h
    ensures StrictlyDescending([h] + tail)
  {
    var r := [h] + tail;
    forall i, j | 0 <= i < j < |r|
      ensures r[i] > r[j]
    {
      assert r[j] == tail[j - 1] && r[j] in tail;
      if i > 0 {
        assert r[i] == tail[i - 1];
      }
    }
  }

  /**
    The distinct days of the journal, newest first: the set of days
    turned into a list and sorted descending.
   */
  function UniqueDaysDescending(entries: seq<MoodEntry>): (u: seq<int>)
    ensures StrictlyDescending(u)
    ensures forall d :: d in u <==> d in DaySet(entries)
    ensures |u| == |DaySet(entries)|
  {
    if |entries| == 0 then []
    else
      var init := entries[..|entries| - 1];
      var last := entries[|entries| - 1].day;
      var rest := UniqueDaysDescending(init);
      var days := DaySet(init);
      assert DaySet(entries) == days + {last};
      assert last in rest <==> last in days;
      assert last !in days ==> |days + {last}| == |days| + 1;
      assert last in days ==> days + {last} == days;
      InsertDescending(rest, last)
  }

  /**
    How many further list positions, from `i` on, continue the run of
    consecutive days: each day exactly one before the day listed before it.
   */
  function RunFrom(u: seq<int>, i: nat): (k: nat)
    requires 1 <= i <= |u|
    ensures i + k <= |u|
    ensures forall j :: i <= j < i + k ==> u[j - 1] - u[j] == 1
    ensures i + k == |u| || u[i + k - 1] - u[i + k] != 1
    decreases |u| - i
  {
    if i < |u| && u[i - 1] - u[i] == 1 then 1 + RunFrom(u, i + 1) else 0
  }

  /**
    The current streak: zero for an empty journal or when the newest day
    is neither today nor yesterday; otherwise one plus the number of
    consecutive-day steps back from the newest day.
   */
  function Streak(entries: seq<MoodEntry>, today: int): (r: nat)
    ensures |entries| == 0 ==> r == 0
    ensures |entries| > 0 && NewestDay(entries) != today && NewestDay(entries) != today - 1 ==> r == 0
    ensures |entries| > 0 && (NewestDay(entries) == today || NewestDay(entries) == today - 1) ==>
      StreakOf(DaySet(entries), NewestDay(entries), r)
  {
    if |entries| == 0 then 0
    else
      var u := UniqueDaysDescending(entries);
      NewestIsFirst(entries, u);
      if u[0] != today && u[0] != today - 1 then 0
      else
        var r := 1 + RunFrom(u, 1);
        RunIsStreak(u, DaySet(entries), r);
        r
  }

  /**
    `r` is the length of the maximal run of consecutive logged days that
    ends at `newest`: `r >= 1`, every day of `(newest - r, newest]` is
    logged, and the day before the run is not.
   */
  predicate StreakOf(days: set<int>, newest: int, r: int)
  {
    && r >= 1
    && (forall d :: newest - r < d <= newest ==> d in days)
    && newest - r !in days
  }

  /** The first entry of the sorted list is the newest day. */
  lemma NewestIsFirst(entries: seq<MoodEntry>, u: seq<int>)
    requires |entries| > 0
    requires StrictlyDescending(u) && forall d :: d in u <==> d in DaySet(entries)
    ensures |u| > 0 && u[0] == NewestDay(entries)
  {
    assert NewestDay(entries) in u;
    var k :| 0 <= k < |u| && u[k] == NewestDay(entries);
    assert u[0] in DaySet(entries);
  }

  /** In a strictly descending list whose first `r` steps are each one day, position `j` holds `u[0] - j`. */
  lemma {:induction false} ConsecutivePrefix(u: seq<int>, r: nat, j: nat)
    requires r <= |u| && j < r
    requires forall m :: 1 <= m < r ==> u[m - 1] - u[m] == 1
    ensures u[j] == u[0] - j
  {
    if j > 0 {
      ConsecutivePrefix(u, r, j - 1);
    }
  }

  /** A run read off the sorted list is a maximal run of logged days. */
  lemma RunIsStreak(u: seq<int>, days: set<int>, r: nat)
    requires StrictlyDescending(u) && forall d :: d in u <==> d in days
    requires 1 <= r <= |u|
    requires forall m :: 1 <= m < r ==> u[m - 1] - u[m] == 1
    requires r == |u| || u[r - 1] - u[r] != 1
    ensures StreakOf(days, u[0], r)
  {
    forall d | u[0] - r < d <= u[0]
      ensures d in days
    {
      ConsecutivePrefix(u, r, u[0] - d);
      assert u[u[0] - d] == d;
    }
    ConsecutivePrefix(u, r, r - 1);
    if u[0] - r in days {
      var k :| 0 <= k < |u| && u[k] == u[0] - r;
      if k < r {
        ConsecutivePrefix(u, r, k);
      }
    }
  }

  /** The maximal run ending at a given day is unique. */
  lemma StreakOfUnique(days: set<int>, newest: int, a: int, b: int)
    requires StreakOf(days, newest, a) && StreakOf(days, newest, b)
    ensures a == b
  {
  }

  /** The streak is never more than the number of distinct days. */
  lemma StreakAtMostTotalDays(entries: seq<MoodEntry>, today: int)
    ensures Streak(entries, today) <= TotalDays(entries)
  {
    if |entries| > 0 {
      var u := UniqueDaysDescending(entries);
      NewestIsFirst(entries, u);
      if u[0] == today || u[0] == today - 1 {
        var r := Streak(entries, today);
        var k := RunFrom(u, 1);
        RunIsStreak(u, DaySet(entries), 1 + k);
        StreakOfUnique(DaySet(entries), u[0], r, 1 + k);
      }
    }
  }

  /** Another entry on a day already logged changes neither the streak nor the day count. */
  lemma SameDayEntryKeepsStreak(entries: seq<MoodEntry>, e: MoodEntry, today: int)
    requires e.day in DaySet(entries)
    ensures Streak(entries + [e], today) == Streak(entries, today)
    ensures TotalDays(entries + [e]) == TotalDays(entries)
  {
    var more := entries + [e];
    SameDayEntryKeepsTotalDays(entries, e);
    NewestDayOfSameDays(entries, more);
    var n := NewestDay(entries);
    if n == today || n == today - 1 {
      StreakOfUnique(DaySet(entries), n, Streak(more, today), Streak(entries, today));
    }
  }

  /** A streak that is not zero ends today or yesterday and counts back from there. */
  lemma StreakCountsBackFromToday(entries: seq<MoodEntry>, today: int)
    ensures Streak(entries, today) > 0 ==> |entries| > 0
    ensures Streak(entries, today) > 0 ==>
      && (NewestDay(entries) == today || NewestDay(entries) == today - 1)
      && forall d :: NewestDay(entries) - Streak(entries, today) < d <= NewestDay(entries) ==> d in DaySet(entries)
  {
    var r := Streak(entries, today);
    if r > 0 && |entries| > 0 {
      var n := NewestDay(entries);
      assert n == today || n == today - 1;
      assert StreakOf(DaySet(entries), n, r);
    }
  }

  /** An entry on day `d` (the other fields do not matter to the streak). */
  function EntryOn(d: int): MoodEntry
  {
    MoodEntry("", 3, "Okay", "", d)
  }

  /** The days of a three-entry journal. */
  lemma DaySetOfThree(x: int, y: int, z: int)
    ensures DaySet([EntryOn(x), EntryOn(y), EntryOn(z)]) == {x, y, z}
  {
    var es := [EntryOn(x), EntryOn(y), EntryOn(z)];
    assert es[..2] == [EntryOn(x), EntryOn(y)];
    assert es[..2][..1] == [EntryOn(x)];
    assert [EntryOn(x)][..0] == [];
    assert DaySet([EntryOn(x)]) == {x};
    assert DaySet(es[..2]) == {x, y};
  }

  /** Days today-2, today-1 and today: a streak of 3. */
  lemma StreakOfThreeDays(today: int)
    ensures Streak([EntryOn(today - 2), EntryOn(today - 1), EntryOn(today)], today) == 3
  {
    var a := [EntryOn(today - 2), EntryOn(today - 1), EntryOn(today)];
    DaySetOfThree(today - 2, today - 1, today);
    NewestDayIsMaxDay(a);
    var days := DaySet(a);
    assert today in days;
    var n := NewestDay(a);
    assert n == today;
    assert StreakOf(days, today, 3);
    StreakOfUnique(days, today, Streak(a, today), 3);
  }

  /** Days today-3, today-1 and today: the gap at today-2 stops the count at 2. */
  lemma StreakStopsAtGap(today: int)
    ensures Streak([EntryOn(today - 3), EntryOn(today - 1), EntryOn(today)], today) == 2
  {
    var b := [EntryOn(today - 3), EntryOn(today - 1), EntryOn(today)];
    DaySetOfThree(today - 3, today - 1, today);
    NewestDayIsMaxDay(b);
    var days := DaySet(b);
    assert today in days;
    var n := NewestDay(b);
    assert n == today;
    assert StreakOf(days, today, 2);
    StreakOfUnique(days, today, Streak(b, today), 2);
  }

  /** A single entry five days ago: no streak; a single entry yesterday: a streak of 1. */
  lemma StreakNeedsTodayOrYesterday(today: int)
    ensures Streak([EntryOn(today - 5)], today) == 0
    ensures Streak([EntryOn(today - 1)], today) == 1
  {
    var c := [EntryOn(today - 1)];
    assert DaySet(c) == {today - 1} by {
      assert c[0].day == today - 1;
    }
    StreakOfUnique(DaySet(c), today - 1, Streak(c, today), 1);
  }

  /** A single entry today: streak 1, one mindful day, average equal to its score. */
  lemma SingleEntryToday(e: MoodEntry, today: int)
    requires e.day == today
    ensures Streak([e], today) == 1
    ensures TotalDays([e]) == 1
    ensures AverageMood([e]) == e.moodScore as real
  {
    assert DaySet([e]) == {today} by {
      assert [e][0].day == today;
    }
    StreakOfUnique(DaySet([e]), today, Streak([e], today), 1);
    assert [e][..0] == [];
    assert SumScores([e]) == e.moodScore;
  }

  // ---------------------------------------------------------------------
  // Average, best and worst

  /** Sum of the scores; with every score in 1..5 it lies between `n` and `5 * n`. */
  function SumScores(entries: seq<MoodEntry>): (sum: int)
    ensures |entries| == 0 ==> sum == 0
    ensures (forall i :: 0 <= i < |entries| ==> ValidScore(entries[i].moodScore)) ==> |entries| <= sum <= 5 * |entries|
  {
    if |entries| == 0 then 0
    else
      var init := entries[..|entries| - 1];
      assert forall i :: 0 <= i < |init| ==> init[i] == entries[i];
      SumScores(init) + entries[|entries| - 1].moodScore
  }

  /** Highest score, 0 for an empty journal. */
  function BestMood(entries: seq<MoodEntry>): (r: int)
    ensures |entries| == 0 ==> r == 0
    ensures |entries| > 0 ==>
      (exists i :: 0 <= i < |entries| && entries[i].moodScore == r) &&
      forall i :: 0 <= i < |entries| ==> entries[i].moodScore <= r
  {
    if |entries| == 0 then 0
    else if |entries| == 1 then entries[0].moodScore
    else
      var rest := BestMood(entries[1..]);
      assert forall i :: 1 <= i < |entries| ==> entries[1..][i - 1] == entries[i];
      if entries[0].moodScore > rest then entries[0].moodScore else rest
  }

  /** Lowest score, 0 for an empty journal. */
  function WorstMood(entries: seq<MoodEntry>): (r: int)
    ensures |entries| == 0 ==> r == 0
    ensures |entries| > 0 ==>
      (exists i :: 0 <= i < |entries| && entries[i].moodScore == r) &&
      forall i :: 0 <= i < |entries| ==> r <= entries[i].moodScore
  {
    if |entries| == 0 then 0
    else if |entries| == 1 then entries[0].moodScore
    else
      var rest := WorstMood(entries[1..]);
      assert forall i :: 1 <= i < |entries| ==> entries[1..][i - 1] == entries[i];
      if entries[0].moodScore < rest then entries[0].moodScore else rest
  }

  /** Mean score, 0 for an empty journal (before rounding to one decimal). */
  function AverageMood(entries: seq<MoodEntry>): (avg: real)
    ensures |entries| == 0 ==> avg == 0.0
    ensures |entries| > 0 ==> WorstMood(entries) as real <= avg <= BestMood(entries) as real
  {
    if |entries| == 0 then 0.0
    else
      SumBetween(entries, WorstMood(entries), BestMood(entries));
      MeanBetween(SumScores(entries), |entries|, WorstMood(entries), BestMood(entries));
      SumScores(entries) as real / |entries| as real
  }

  /** Every score lies between `lo` and `hi`, so the sum lies between `n * lo` and `n * hi`. */
  lemma {:induction false} SumBetween(entries: seq<MoodEntry>, lo: int, hi: int)
    requires forall i :: 0 <= i < |entries| ==> lo <= entries[i].moodScore <= hi
    ensures |entries| * lo <= SumScores(entries) <= |entries| * hi
  {
    if |entries| > 0 {
      var init := entries[..|entries| - 1];
      assert forall i :: 0 <= i < |init| ==> init[i] == entries[i];
      SumBetween(init, lo, hi);
      var n := |init|;
      assert SumScores(entries) == SumScores(init) + entries[n].moodScore;
      MulSucc(n, lo);
      MulSucc(n, hi);
    }
  }

  /** One more summand of `x`: `(n + 1) * x == n * x + x`. */
  lemma MulSucc(n: int, x: int)
    ensures (n + 1) * x == n * x + x
  {
  }

  /**
    The average lies between the worst and the best score, and for a
    well-formed journal all three lie in 1..5; an empty journal shows 0
    for each.
   */
  lemma AverageBetweenWorstAndBest(entries: seq<MoodEntry>)
    ensures |entries| == 0 ==> AverageMood(entries) == 0.0 && BestMood(entries) == 0 && WorstMood(entries) == 0
    ensures |entries| > 0 ==>
      WorstMood(entries) as real <= AverageMood(entries) <= BestMood(entries) as real
    ensures |entries| > 0 && WellFormed(entries) ==>
      1 <= WorstMood(entries) && BestMood(entries) <= 5
  {
  }

  /** A sum between `n * lo` and `n * hi` has its mean between `lo` and `hi`. */
  lemma MeanBetween(sum: int, n: int, lo: int, hi: int)
    requires n > 0 && n * lo <= sum <= n * hi
    ensures lo as real <= sum as real / n as real <= hi as real
  {
    var avg := sum as real / n as real;
    assert avg * n as real == sum as real;
    assert (n * lo) as real == lo as real * n as real;
    assert (n * hi) as real == hi as real * n as real;
  }

  /** Scores 2 and 4 average to 3. */
  lemma AverageExample()
    ensures AverageMood([EntryOn(0).(moodScore := 2), EntryOn(1).(moodScore := 4)]) == 3.0
  {
    var es := [EntryOn(0).(moodScore := 2), EntryOn(1).(moodScore := 4)];
    assert es[..1] == [EntryOn(0).(moodScore := 2)];
    assert es[..1][..0] == [];
    assert SumScores(es[..1]) == 2;
    assert SumScores(es) == 6;
  }

  // ---------------------------------------------------------------------
  // Chart data

  /** One point of the trend chart. */
  datatype TrendPoint = TrendPoint(day: int, score: int, moodLabel: string)

  function PointOf(e: MoodEntry): TrendPoint
  {
    TrendPoint(e.day, e.moodScore, e.moodLabel)
  }

  /** The number of entries the trend chart shows at most. */
  const TrendWindow: nat := 30

  /** The last (at most) thirty entries, oldest first, as chart points. */
  function TrendData(entries: seq<MoodEntry>): (r: seq<TrendPoint>)
    ensures |r| == if |entries| < TrendWindow then |entries| else TrendWindow
    ensures forall i :: 0 <= i < |r| ==> r[i] == PointOf(entries[|entries| - |r| + i])
  {
    var start := if |entries| > TrendWindow then |entries| - TrendWindow else 0;
    seq(|entries| - start, i requires 0 <= i < |entries| - start => PointOf(entries[start + i]))
  }

  /**
    Adding an entry puts its point at the end of the chart; once the
    window is full the oldest point drops off the front.
   */
  lemma TrendSlides(entries: seq<MoodEntry>, e: MoodEntry)
    ensures |entries| < TrendWindow ==> TrendData(entries + [e]) == TrendData(entries) + [PointOf(e)]
    ensures |entries| >= TrendWindow ==> TrendData(entries + [e]) == TrendData(entries)[1..] + [PointOf(e)]
  {
  }

  // ---------------------------------------------------------------------
  // Distribution

  /** How many entries have score `s`. */
  function CountScore(entries: seq<MoodEntry>, s: int): (c: nat)
    ensures c <= |entries|
  {
    if |entries| == 0 then 0
    else CountScore(entries[..|entries| - 1], s) + (if entries[|entries| - 1].moodScore == s then 1 else 0)
  }

  /** The bar chart's counts for the scores 1 to 5 (Terrible .. Great). */
  function Distribution(entries: seq<MoodEntry>): (r: seq<nat>)
    ensures |r| == |MoodLabels|
    ensures forall s :: 1 <= s <= 5 ==> r[s - 1] == CountScore(entries, s)
  {
    [CountScore(entries, 1), CountScore(entries, 2), CountScore(entries, 3),
     CountScore(entries, 4), CountScore(entries, 5)]
  }

  /** The count of a score is its multiplicity among the scores. */
  lemma {:induction false} CountIsMultiplicity(entries: seq<MoodEntry>, s: int)
    ensures CountScore(entries, s) == multiset(ScoresOf(entries))[s]
  {
    if |entries| > 0 {
      var init := entries[..|entries| - 1];
      CountIsMultiplicity(init, s);
      assert ScoresOf(entries) == ScoresOf(init) + [entries[|entries| - 1].moodScore];
    }
  }

  function ScoresOf(entries: seq<MoodEntry>): (r: seq<int>)
    ensures |r| == |entries| && forall i :: 0 <= i < |entries| ==> r[i] == entries[i].moodScore
  {
    seq(|entries|, i requires 0 <= i < |entries| => entries[i].moodScore)
  }

  /** When every score is in 1..5 the five bars add up to the number of entries. */
  lemma {:induction false} DistributionSumsToCount(entries: seq<MoodEntry>)
    requires forall i :: 0 <= i < |entries| ==> ValidScore(entries[i].moodScore)
    ensures var d := Distribution(entries); d[0] + d[1] + d[2] + d[3] + d[4] == |entries|
  {
    if |entries| > 0 {
      var init := entries[..|entries| - 1];
      assert forall i :: 0 <= i < |init| ==> init[i] == entries[i];
      DistributionSumsToCount(init);
    }
  }
}
