/** `updateProgress`: the completion percentage shown in the progress bar and the
    motivation message chosen from it. */
module Progress {
  import opened Seqs
  import opened Tasks

  /** `tasks.filter(t => t.completed).length`. */
  function CompletedCount(s: seq<Task>): (n: nat)
    ensures n <= |s|
    ensures n == 0 <==> forall i :: 0 <= i < |s| ==> !s[i].completed
    ensures n == |s| <==> forall i :: 0 <= i < |s| ==> s[i].completed
  {
    if s == [] then 0
    else (if s[0].completed then 1 else 0) + CompletedCount(s[1..])
  }

  /** The callback `t => t.completed`. */
  const Done: Task -> bool := (t: Task) => t.completed

  /** The count is the length of `tasks.filter(t => t.completed)`. */
  lemma {:induction false} CompletedCountIsFilter(s: seq<Task>)
    ensures CompletedCount(s) == |Filter(s, Done)|
  {
    if s != [] {
      CompletedCountIsFilter(s[1..]);
    }
  }

  /** `Math.round(completed / total * 100)`, or 0 for no tasks: the percentage
      rounded to the nearest integer, halves rounded up. */
  function RoundedPercent(completed: nat, total: nat): (p: nat)
    requires completed <= total
    ensures p <= 100
    ensures total == 0 ==> p == 0
    ensures total > 0 ==> 2 * total * p <= 200 * completed + total < 2 * total * (p + 1)
  {
    if total == 0 then 0
    else
      PercentBounds(completed, total, (200 * completed + total) / (2 * total));
      (200 * completed + total) / (2 * total)
  }

  /** The quotient `RoundedPercent` takes is at most 100 and rounds half up. */
  lemma PercentBounds(c: nat, t: nat, p: nat)
    requires 0 < t && c <= t && p == (200 * c + t) / (2 * t)
    ensures p <= 100
    ensures 2 * t * p <= 200 * c + t < 2 * t * (p + 1)
  {
    var d, a := 2 * t, 200 * c + t;
    DivBounds(a, d);
    assert d * p < d * 101;
    MulLessCancel(d, p, 101);
  }

  lemma DivBounds(a: nat, d: nat)
    requires d > 0
    ensures d * (a / d) <= a < d * (a / d + 1)
  {
  }

  lemma DivMonotone(a: nat, b: nat, d: nat)
    requires a <= b && d > 0
    ensures a / d <= b / d
  {
    var qa, qb := a / d, b / d;
    DivBounds(a, d);
    DivBounds(b, d);
    assert d * qa < d * (qb + 1);
    MulLessCancel(d, qa, qb + 1);
  }

  lemma MulLessCancel(k: nat, x: nat, y: nat)
    requires k > 0 && k * x < k * y
    ensures x < y
  {
  }

  /** The percentage `updateProgress` shows for the store. */
  function ProgressPercent(s: seq<Task>): (p: nat)
    ensures p <= 100
  {
    RoundedPercent(CompletedCount(s), |s|)
  }

  /** No tasks, or none completed, gives 0; all completed gives 100. */
  lemma PercentExtremes(completed: nat, total: nat)
    requires completed <= total
    ensures completed == 0 ==> RoundedPercent(completed, total) == 0
    ensures 0 < total && completed == total ==> RoundedPercent(completed, total) == 100
  {
    var p := RoundedPercent(completed, total);
    if total > 0 {
      if completed == 0 {
        MulLessCancel(2 * total, p, 1);
      }
      if completed == total {
        MulLessCancel(2 * total, 99, p + 1);
      }
    }
  }

  /** Completing more tasks out of the same total never lowers the percentage. */
  lemma PercentMonotone(c1: nat, c2: nat, total: nat)
    requires c1 <= c2 <= total
    ensures RoundedPercent(c1, total) <= RoundedPercent(c2, total)
  {
    if total > 0 {
      DivMonotone(200 * c1 + total, 200 * c2 + total, 2 * total);
    }
  }

  /** Rounding shows 100 before every task is done (199 of 200), and 0 after
      one is done (1 of 201). */
  lemma RoundingHidesOneTask()
    ensures RoundedPercent(199, 200) == 100
    ensures RoundedPercent(1, 201) == 0
  {
  }

  /** Toggling an id whose tasks are all open never lowers the percentage. */
  lemma {:induction false} ToggleOpenTasksCountsUp(s: seq<Task>, id: int)
    requires forall i :: 0 <= i < |s| && s[i].id == id ==> !s[i].completed
    ensures CompletedCount(Toggled(s, id)) >= CompletedCount(s)
    ensures ProgressPercent(Toggled(s, id)) >= ProgressPercent(s)
  {
    if s != [] {
      ToggleOpenTasksCountsUp(s[1..], id);
      assert Toggled(s, id)[1..] == Toggled(s[1..], id);
    }
    PercentMonotone(CompletedCount(s), CompletedCount(Toggled(s, id)), |s|);
  }

  /** The six messages of `updateProgress`. */
  datatype Motivation = StartAdding | AllDone | AlmostThere | Halfway | GettingStarted | JustBeginning

  /** The band for `total` tasks at `percent`: no tasks, exactly 100, at least 75,
      at least 50, at least 25, and below 25. */
  function Band(total: nat, percent: nat): (m: Motivation)
    ensures m == StartAdding <==> total == 0
    ensures m == AllDone <==> total > 0 && percent == 100
    ensures m == AlmostThere <==> total > 0 && percent != 100 && percent >= 75
    ensures m == Halfway <==> total > 0 && 50 <= percent < 75
    ensures m == GettingStarted <==> total > 0 && 25 <= percent < 50
    ensures m == JustBeginning <==> total > 0 && percent < 25
  {
    if total == 0 then StartAdding
    else if percent == 100 then AllDone
    else if percent >= 75 then AlmostThere
    else if percent >= 50 then Halfway
    else if percent >= 25 then GettingStarted
    else JustBeginning
  }

  /** The text shown for each band, character for character as script.js holds
      it: each emoji there is stored as the four characters that its UTF-8
      bytes spell when read as Windows-1252 (U+1F389 as U+00F0 U+0178 U+017D
      U+2030, and so on), and `textContent` shows those characters. */
  function Message(m: Motivation): string {
    match m
    case StartAdding => "Start adding tasks!"
    case AllDone => "\U{00F0}\U{0178}\U{017D}\U{2030} All done! Amazing!"
    case AlmostThere => "\U{00F0}\U{0178}\U{201D}\U{00A5} Almost there! Keep going!"
    case Halfway => "\U{00F0}\U{0178}\U{2019}\U{00AA} Halfway! You've got this!"
    case GettingStarted => "\U{00F0}\U{0178}\U{0161}\U{20AC} Getting started! Push forward!"
    case JustBeginning => "\U{00F0}\U{0178}\U{0152}\U{00B1} Just beginning? Every step counts!"
  }

  /** Different bands show different messages. */
  lemma MessagesDistinct(m1: Motivation, m2: Motivation)
    requires Message(m1) == Message(m2)
    ensures m1 == m2
  {
    assert Message(m1)[0] == Message(m2)[0] && Message(m1)[2] == Message(m2)[2];
  }

  /** The band `updateProgress` picks for the store: "Start adding tasks!"
      exactly for the empty store, and "All done!" whenever every task is done. */
  function StoreBand(s: seq<Task>): (m: Motivation)
    ensures m == StartAdding <==> s == []
    ensures s != [] && (forall i :: 0 <= i < |s| ==> s[i].completed) ==> m == AllDone
  {
    PercentExtremes(CompletedCount(s), |s|);
    Band(|s|, ProgressPercent(s))
  }

  /** How far along a band is, from 0 (no tasks) to 5 (all done). */
  function Level(m: Motivation): nat {
    match m
    case StartAdding => 0
    case JustBeginning => 1
    case GettingStarted => 2
    case Halfway => 3
    case AlmostThere => 4
    case AllDone => 5
  }

  /** For a fixed non-empty store size, a higher percentage never gives a lower band. */
  lemma BandMonotone(total: nat, p1: nat, p2: nat)
    requires total > 0 && p1 <= p2 <= 100
    ensures Level(Band(total, p1)) <= Level(Band(total, p2))
  {
  }

  /** The store's percentage: 0 when nothing is done (the empty store included),
      100 when everything is done. */
  lemma StorePercentExtremes(s: seq<Task>)
    ensures (forall i :: 0 <= i < |s| ==> !s[i].completed) ==> ProgressPercent(s) == 0
    ensures s != [] && (forall i :: 0 <= i < |s| ==> s[i].completed) ==> ProgressPercent(s) == 100
  {
    PercentExtremes(CompletedCount(s), |s|);
  }
}
