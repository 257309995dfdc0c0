// scripts/check_progress_watch_reference.py: a streaming watch for a run of true samples.
module Watch {
  import opened Common

  datatype Kind = Normal | Segment | Special(name: string)

  datatype Event = Event(tick: int, truth: bool, kind: Kind)

  datatype Verdict = ContinuityLost | Expired | Interrupted(name: string) | Satisfied | Pending

  // The verdict, the record at which it was reached, and the records that count.
  datatype Report = Report(verdict: Verdict, number: nat, streak: seq<nat>)

  // Record numbers start at two: the baseline is record one.
  function EventAt(events: seq<Event>, record: nat): Event
    requires 2 <= record < |events| + 2
  {
    events[record - 2]
  }

  // Records that a streak may hold, at some point of the stream: normal true samples before it,
  // in order and not past the deadline.
  ghost predicate Counted(events: seq<Event>, streak: seq<nat>, upTo: nat, deadline: int) {
    && upTo <= |events|
    && (forall i :: 0 <= i < |streak| ==> 2 <= streak[i] < upTo + 2)
    && (forall i, j :: 0 <= i < j < |streak| ==> streak[i] < streak[j])
    && (forall i :: 0 <= i < |streak| ==>
          EventAt(events, streak[i]).truth && EventAt(events, streak[i]).kind.Normal?
            && EventAt(events, streak[i]).tick <= deadline)
  }

  // Consecutive counted samples are at least a cadence apart.
  ghost predicate Spaced(events: seq<Event>, streak: seq<nat>, cadence: int)
    requires forall i :: 0 <= i < |streak| ==> 2 <= streak[i] < |events| + 2
  {
    forall i, j :: 0 <= i < j < |streak| && j == i + 1 ==>
      EventAt(events, streak[j]).tick >= EventAt(events, streak[i]).tick + cadence
  }

  // No false sample since the first counted one, and nothing but normal samples before the deadline.
  ghost predicate Unbroken(events: seq<Event>, streak: seq<nat>, upTo: nat)
    requires upTo <= |events|
  {
    && (forall m :: 0 <= m < upTo ==> events[m].kind.Normal?)
    && (streak != [] ==> forall m :: streak[0] - 2 <= m < upTo && 0 <= m ==> events[m].truth)
  }

  ghost predicate Streak(events: seq<Event>, streak: seq<nat>, upTo: nat, cadence: int, deadline: int) {
    Counted(events, streak, upTo, deadline) && Spaced(events, streak, cadence) && Unbroken(events, streak, upTo)
  }

  // ---- The stream as a fold.

  datatype State = Watching(last: int, streak: seq<nat>) | Done(report: Report)

  function Step(s: State, e: Event, number: nat, required: int, cadence: int, deadline: int): State {
    if s.Done? then s
    else if e.kind.Segment? then Done(Report(ContinuityLost, number, []))
    else if e.tick > deadline then Done(Report(Expired, number, []))
    else if !e.kind.Normal? then Done(Report(Interrupted(e.kind.name), number, []))
    else
      var counts := e.truth && e.tick >= s.last + cadence;
      var streak := if !e.truth then [] else if counts then s.streak + [number] else s.streak;
      if counts && |streak| == required then Done(Report(Satisfied, number, streak))
      else if e.tick == deadline then Done(Report(Expired, number, []))
      else Watching(if counts then e.tick else s.last, streak)
  }

  function After(events: seq<Event>, n: nat, required: int, cadence: int, deadline: int): State
    requires n <= |events|
  {
    if n == 0 then Watching(0, [])
    else Step(After(events, n - 1, required, cadence, deadline), events[n - 1], n + 1, required, cadence, deadline)
  }

  function ReportOf(events: seq<Event>, required: int, cadence: int, deadline: int): Report {
    match After(events, |events|, required, cadence, deadline)
    case Done(r) => r
    case Watching(_, streak) => Report(Pending, |events| + 1, streak)
  }

  lemma {:induction false} DoneStays(events: seq<Event>, k: nat, n: nat, required: int, cadence: int, deadline: int)
    requires k <= n <= |events| && After(events, k, required, cadence, deadline).Done?
    ensures After(events, n, required, cadence, deadline) == After(events, k, required, cadence, deadline)
    decreases n
  {
    if k < n { DoneStays(events, k, n - 1, required, cadence, deadline); }
  }

  // ---- What the report is, said of the events alone.

  // The sample that counted last before record i + 2.
  predicate LatestBefore(counts: seq<bool>, j: int, i: nat)
    requires i <= |counts|
  {
    0 <= j < i && counts[j] && forall k :: j < k < i ==> !counts[k]
  }

  predicate NoneBefore(counts: seq<bool>, i: nat)
    requires i <= |counts|
  {
    forall j :: 0 <= j < i ==> !counts[j]
  }

  // At least a cadence after the sample that counted last, or after tick zero where none has counted.
  ghost predicate FarEnough(events: seq<Event>, counts: seq<bool>, i: nat, cadence: int)
    requires i < |events| && i <= |counts|
  {
    && (NoneBefore(counts, i) ==> events[i].tick >= cadence)
    && forall j :: 0 <= j < i && LatestBefore(counts, j, i) ==> events[i].tick >= events[j].tick + cadence
  }

  // A sample counts exactly when it is true and far enough from the one that counted last.
  ghost predicate CountsRight(events: seq<Event>, counts: seq<bool>, i: nat, cadence: int)
    requires i < |counts| <= |events|
  {
    counts[i] <==> events[i].truth && FarEnough(events, counts, i, cadence)
  }

  // Which samples count.
  ghost predicate Counting(events: seq<Event>, counts: seq<bool>, cadence: int) {
    |counts| <= |events| && forall i :: 0 <= i < |counts| ==> CountsRight(events, counts, i, cadence)
  }

  // Record x counts, and among the first n samples there is no false one from it on.
  predicate Stands(events: seq<Event>, counts: seq<bool>, n: nat, x: nat)
    requires n <= |events| && n <= |counts|
  {
    2 <= x < n + 2 && counts[x - 2] && forall m :: x - 2 <= m < n ==> events[m].truth
  }

  // The records that stand after the first n samples.
  function Standing(events: seq<Event>, counts: seq<bool>, n: nat): set<nat>
    requires n <= |events| && n <= |counts|
  {
    set x: nat | x < n + 2 && Stands(events, counts, n, x)
  }

  // Sample i counts, and is the required one of those that stand.
  predicate Completes(events: seq<Event>, counts: seq<bool>, i: nat, required: int)
    requires i < |events| && i < |counts|
  {
    counts[i] && |Standing(events, counts, i + 1)| == required
  }

  // The events that end a watch.
  predicate Ends(events: seq<Event>, counts: seq<bool>, i: nat, required: int, deadline: int)
    requires i < |events| && i < |counts|
  {
    !events[i].kind.Normal? || events[i].tick >= deadline || Completes(events, counts, i, required)
  }

  predicate EndsFirst(events: seq<Event>, counts: seq<bool>, i: nat, required: int, deadline: int)
    requires i < |events| && |events| <= |counts|
  {
    && Ends(events, counts, i, required, deadline)
    && forall j :: 0 <= j < i ==> !Ends(events, counts, j, required, deadline)
  }

  // The verdict at the event that ends the watch.
  function VerdictAt(events: seq<Event>, counts: seq<bool>, i: nat, required: int, deadline: int): Verdict
    requires i < |events| && i < |counts|
  {
    var e := events[i];
    if e.kind.Segment? then ContinuityLost
    else if e.tick > deadline then Expired
    else if e.kind.Special? then Interrupted(e.kind.name)
    else if Completes(events, counts, i, required) then Satisfied
    else Expired
  }

  predicate Ascending(s: seq<nat>) { forall i, j :: 0 <= i < j < |s| ==> s[i] < s[j] }

  // The records that stand, in order.
  ghost predicate Lists(events: seq<Event>, counts: seq<bool>, n: nat, streak: seq<nat>)
    requires n <= |events| && n <= |counts|
  {
    Ascending(streak) && Elements(streak) == Standing(events, counts, n)
  }

  // The report at the first event that ends the watch, with the streak only where it is satisfied;
  // pending with the current streak exactly where no event does.
  ghost predicate Reports(events: seq<Event>, counts: seq<bool>, required: int, deadline: int, r: Report)
    requires |events| <= |counts|
  {
    if r.verdict.Pending? then
      && (forall i :: 0 <= i < |events| ==> !Ends(events, counts, i, required, deadline))
      && r.number == |events| + 1 && Lists(events, counts, |events|, r.streak)
    else
      && 2 <= r.number < |events| + 2 && EndsFirst(events, counts, r.number - 2, required, deadline)
      && r.verdict == VerdictAt(events, counts, r.number - 2, required, deadline)
      && (if r.verdict.Satisfied? then Lists(events, counts, r.number - 1, r.streak) else r.streak == [])
  }

  ghost predicate WatchReport(events: seq<Event>, required: int, cadence: int, deadline: int, r: Report) {
    exists counts: seq<bool> ::
      |counts| == |events| && Counting(events, counts, cadence) && Reports(events, counts, required, deadline, r)
  }

  // The tick that a sample is measured from.
  ghost predicate IsLast(events: seq<Event>, counts: seq<bool>, n: nat, last: int)
    requires n <= |events| && n <= |counts|
  {
    (NoneBefore(counts, n) && last == 0) || exists j :: LatestBefore(counts, j, n) && last == events[j].tick
  }

  lemma LatestUnique(counts: seq<bool>, j: int, k: int, n: nat)
    requires n <= |counts| && LatestBefore(counts, j, n) && LatestBefore(counts, k, n)
    ensures j == k
  {
  }

  lemma FarFromLast(events: seq<Event>, counts: seq<bool>, i: nat, last: int, cadence: int)
    requires i < |events| && i <= |counts| && IsLast(events, counts, i, last)
    ensures FarEnough(events, counts, i, cadence) <==> events[i].tick >= last + cadence
  {
    if !NoneBefore(counts, i) {
      var j :| LatestBefore(counts, j, i) && last == events[j].tick;
      forall k | 0 <= k < i && LatestBefore(counts, k, i) ensures k == j { LatestUnique(counts, j, k, i); }
    }
  }

  lemma LastMoves(events: seq<Event>, counts: seq<bool>, n: nat, last: int)
    requires n < |events| && n < |counts| && IsLast(events, counts, n, last)
    ensures IsLast(events, counts, n + 1, if counts[n] then events[n].tick else last)
  {
    if counts[n] {
      assert LatestBefore(counts, n, n + 1);
    } else if !NoneBefore(counts, n) {
      var j :| LatestBefore(counts, j, n) && last == events[j].tick;
      assert LatestBefore(counts, j, n + 1);
    }
  }

  // There is a selection of the samples that count.
  lemma {:induction false} SomeCounting(events: seq<Event>, n: nat, cadence: int) returns (counts: seq<bool>, last: int)
    requires n <= |events|
    ensures |counts| == n && Counting(events, counts, cadence) && IsLast(events, counts, n, last)
  {
    if n == 0 {
      counts, last := [], 0;
    } else {
      var before, was := SomeCounting(events, n - 1, cadence);
      counts, last := MoreCounting(events, before, was, cadence);
    }
  }

  lemma MoreCounting(events: seq<Event>, before: seq<bool>, was: int, cadence: int)
    returns (counts: seq<bool>, last: int)
    requires |before| < |events| && Counting(events, before, cadence) && IsLast(events, before, |before|, was)
    ensures |counts| == |before| + 1 && Counting(events, counts, cadence) && IsLast(events, counts, |counts|, last)
  {
    var n := |before|;
    var bit := events[n].truth && events[n].tick >= was + cadence;
    counts, last := before + [bit], if bit then events[n].tick else was;
    SameLast(events, before, counts, was);
    FarFromLast(events, counts, n, was, cadence);
    LastMoves(events, counts, n, was);
    forall i | 0 <= i <= n ensures CountsRight(events, counts, i, cadence) {
      if i < n { RightAsBefore(events, before, counts, i, cadence); }
    }
  }

  lemma RightAsBefore(events: seq<Event>, a: seq<bool>, b: seq<bool>, i: nat, cadence: int)
    requires i < |a| && a <= b && |b| <= |events| && CountsRight(events, a, i, cadence)
    ensures CountsRight(events, b, i, cadence)
  {
    SamePrefix(events, a, b, i, cadence);
  }

  lemma SameLast(events: seq<Event>, a: seq<bool>, b: seq<bool>, last: int)
    requires |a| <= |events| && a <= b && IsLast(events, a, |a|, last)
    ensures IsLast(events, b, |a|, last)
  {
    if !NoneBefore(a, |a|) {
      var j :| LatestBefore(a, j, |a|) && last == events[j].tick;
      assert LatestBefore(b, j, |a|);
    }
  }

  lemma SamePrefix(events: seq<Event>, a: seq<bool>, b: seq<bool>, i: nat, cadence: int)
    requires i < |events| && i <= |a| && a <= b
    ensures FarEnough(events, a, i, cadence) <==> FarEnough(events, b, i, cadence)
  {
    assert NoneBefore(a, i) <==> NoneBefore(b, i);
    forall j | 0 <= j < i ensures LatestBefore(a, j, i) <==> LatestBefore(b, j, i) { }
  }

  // One more sample.
  lemma StandingMoves(events: seq<Event>, counts: seq<bool>, n: nat)
    requires n < |events| && n < |counts| && (counts[n] ==> events[n].truth)
    ensures Standing(events, counts, n + 1) ==
      if !events[n].truth then {} else if counts[n] then Standing(events, counts, n) + {n + 2}
      else Standing(events, counts, n)
  {
    forall x: nat | x < n + 2
      ensures Stands(events, counts, n + 1, x) <==> Stands(events, counts, n, x) && events[n].truth
    {
    }
  }

  lemma ListsMoves(events: seq<Event>, counts: seq<bool>, n: nat, streak: seq<nat>)
    requires n < |events| && n < |counts| && (counts[n] ==> events[n].truth) && Lists(events, counts, n, streak)
    ensures Lists(events, counts, n + 1,
                  if !events[n].truth then [] else if counts[n] then streak + [n + 2] else streak)
  {
    StandingMoves(events, counts, n);
    assert forall i :: 0 <= i < |streak| ==> streak[i] in Elements(streak);
    assert Elements(streak + [n + 2]) == Elements(streak) + {n + 2};
  }

  lemma ListsSize(events: seq<Event>, counts: seq<bool>, n: nat, streak: seq<nat>)
    requires n <= |events| && n <= |counts| && Lists(events, counts, n, streak)
    ensures |streak| == |Standing(events, counts, n)|
  {
    DistinctCard(streak);
  }

  // An ascending sequence is determined by its elements.
  lemma {:induction false} AscendingUnique(a: seq<nat>, b: seq<nat>)
    requires Ascending(a) && Ascending(b) && Elements(a) == Elements(b)
    ensures a == b
  {
    DistinctCard(a);
    DistinctCard(b);
    if a != [] {
      var n := |a| - 1;
      assert a[n] in Elements(a) && b[n] in Elements(b);
      assert a[n] == b[n];
      assert Elements(a[..n]) == Elements(a) - {a[n]};
      assert Elements(b[..n]) == Elements(b) - {b[n]};
      AscendingUnique(a[..n], b[..n]);
    }
  }

  // While nothing has ended the watch, the stream holds the records that stand.
  lemma {:induction false} WatchingOn(events: seq<Event>, counts: seq<bool>, n: nat, required: int, cadence: int,
                                      deadline: int)
    requires n <= |events| == |counts| && Counting(events, counts, cadence)
    requires forall i :: 0 <= i < n ==> !Ends(events, counts, i, required, deadline)
    ensures var s := After(events, n, required, cadence, deadline);
            s.Watching? && IsLast(events, counts, n, s.last) && Lists(events, counts, n, s.streak)
  {
    if n > 0 {
      WatchingOn(events, counts, n - 1, required, cadence, deadline);
      assert !Ends(events, counts, n - 1, required, deadline);
      OneEvent(events, counts, n - 1, required, cadence, deadline);
    }
  }

  // One event after nothing has ended the watch.
  lemma OneEvent(events: seq<Event>, counts: seq<bool>, n: nat, required: int, cadence: int, deadline: int)
    requires n < |events| == |counts| && Counting(events, counts, cadence)
    requires var s := After(events, n, required, cadence, deadline);
             s.Watching? && IsLast(events, counts, n, s.last) && Lists(events, counts, n, s.streak)
    ensures var s := After(events, n + 1, required, cadence, deadline);
            if Ends(events, counts, n, required, deadline) then
              && s.Done? && s.report.number == n + 2
              && s.report.verdict == VerdictAt(events, counts, n, required, deadline)
              && (if s.report.verdict.Satisfied? then Lists(events, counts, n + 1, s.report.streak)
                else s.report.streak == [])
            else s.Watching? && IsLast(events, counts, n + 1, s.last) && Lists(events, counts, n + 1, s.streak)
  {
    var s := After(events, n, required, cadence, deadline);
    assert CountsRight(events, counts, n, cadence);
    FarFromLast(events, counts, n, s.last, cadence);
    LastMoves(events, counts, n, s.last);
    ListsMoves(events, counts, n, s.streak);
    var streak := if !events[n].truth then [] else if counts[n] then s.streak + [n + 2] else s.streak;
    ListsSize(events, counts, n + 1, streak);
    assert counts[n] <==> events[n].truth && events[n].tick >= s.last + cadence;
  }

  // For every selection of the samples that count there is one report, and the stream gives it.
  lemma ReportBy(events: seq<Event>, counts: seq<bool>, required: int, cadence: int, deadline: int)
    requires |counts| == |events| && Counting(events, counts, cadence)
    ensures Reports(events, counts, required, deadline, ReportOf(events, required, cadence, deadline))
  {
    if i :| 0 <= i < |events| && Ends(events, counts, i, required, deadline) {
      var k := FirstEnd(events, counts, i, required, deadline);
      WatchingOn(events, counts, k, required, cadence, deadline);
      OneEvent(events, counts, k, required, cadence, deadline);
      DoneStays(events, k + 1, |events|, required, cadence, deadline);
    } else {
      WatchingOn(events, counts, |events|, required, cadence, deadline);
    }
  }

  lemma {:induction false} FirstEnd(events: seq<Event>, counts: seq<bool>, i: nat, required: int, deadline: int)
    returns (k: nat)
    requires i < |events| == |counts| && Ends(events, counts, i, required, deadline)
    ensures k <= i && EndsFirst(events, counts, k, required, deadline)
  {
    k := i;
    if j :| 0 <= j < i && Ends(events, counts, j, required, deadline) {
      k := FirstEnd(events, counts, j, required, deadline);
    }
  }

  lemma FirstUnique(events: seq<Event>, counts: seq<bool>, i: nat, j: nat, required: int, deadline: int)
    requires i < |events| <= |counts| && j < |events|
    requires EndsFirst(events, counts, i, required, deadline) && EndsFirst(events, counts, j, required, deadline)
    ensures i == j
  {
  }

  lemma ReportUnique(events: seq<Event>, counts: seq<bool>, required: int, deadline: int, q: Report, r: Report)
    requires |events| <= |counts|
    requires Reports(events, counts, required, deadline, q) && Reports(events, counts, required, deadline, r)
    ensures q == r
  {
    if !q.verdict.Pending? && !r.verdict.Pending? {
      FirstUnique(events, counts, q.number - 2, r.number - 2, required, deadline);
    }
    if q.verdict.Pending? || q.verdict.Satisfied? { AscendingUnique(q.streak, r.streak); }
  }

  // The stream gives exactly the report that the events call for.
  lemma ReportExactly(events: seq<Event>, required: int, cadence: int, deadline: int, r: Report)
    ensures WatchReport(events, required, cadence, deadline, r) <==> r == ReportOf(events, required, cadence, deadline)
  {
    var counts, last := SomeCounting(events, |events|, cadence);
    ReportBy(events, counts, required, cadence, deadline);
    if WatchReport(events, required, cadence, deadline, r) {
      var chosen: seq<bool> :| |chosen| == |events| && Counting(events, chosen, cadence) &&
        Reports(events, chosen, required, deadline, r);
      ReportBy(events, chosen, required, cadence, deadline);
      ReportUnique(events, chosen, required, deadline, r, ReportOf(events, required, cadence, deadline));
    }
  }

  // The watch of the source: the report that the events call for.
  method Model(events: seq<Event>, required: int, cadence: int, deadline: int) returns (r: Report)
    ensures r == ReportOf(events, required, cadence, deadline)
    ensures WatchReport(events, required, cadence, deadline, r)
  {
    r := Stream(events, required, cadence, deadline);
    ReportExactly(events, required, cadence, deadline, r);
  }

  // Its loop, with the last counted tick and the streak list.
  method Stream(events: seq<Event>, required: int, cadence: int, deadline: int) returns (r: Report)
    ensures r == ReportOf(events, required, cadence, deadline)
  {
    var last: int := 0;
    var streak: seq<nat> := [];
    for index := 0 to |events|
      invariant After(events, index, required, cadence, deadline) == Watching(last, streak)
    {
      var e := events[index];
      var number := index + 2;
      ghost var next := After(events, index + 1, required, cadence, deadline);
      if next.Done? { DoneStays(events, index + 1, |events|, required, cadence, deadline); }
      if e.kind.Segment? { return Report(ContinuityLost, number, []); }
      if e.tick > deadline { return Report(Expired, number, []); }
      if !e.kind.Normal? { return Report(Interrupted(e.kind.name), number, []); }
      if !e.truth {
        streak := [];
      } else if e.tick >= last + cadence {
        streak := streak + [number];
        last := e.tick;
        if |streak| == required { return Report(Satisfied, number, streak); }
      }
      if e.tick == deadline { return Report(Expired, number, []); }
    }
    r := Report(Pending, |events| + 1, streak);
  }

  // ---- Any cadence.

  // The streak being watched is a streak, and the last counted tick is its last one.
  ghost predicate Tracks(events: seq<Event>, s: State, n: nat, required: int, cadence: int, deadline: int)
    requires n <= |events|
  {
    match s
    case Watching(last, streak) =>
      && Streak(events, streak, n, cadence, deadline)
      && (streak != [] ==> last == EventAt(events, streak[|streak| - 1]).tick)
    case Done(r) =>
      r.verdict.Satisfied? ==>
        && 2 <= r.number < n + 2 && |r.streak| == required && r.streak != [] && r.streak[|r.streak| - 1] == r.number
        && Streak(events, r.streak, r.number - 1, cadence, deadline)
  }

  lemma AppendStreak(events: seq<Event>, streak: seq<nat>, n: nat, cadence: int, deadline: int)
    requires n < |events| && Streak(events, streak, n, cadence, deadline)
    requires events[n].truth && events[n].kind.Normal? && events[n].tick <= deadline
    requires streak != [] ==> events[n].tick >= EventAt(events, streak[|streak| - 1]).tick + cadence
    ensures Streak(events, streak + [n + 2], n + 1, cadence, deadline)
  {
    var more := streak + [n + 2];
    forall i, j | 0 <= i < j < |more| && j == i + 1
      ensures EventAt(events, more[j]).tick >= EventAt(events, more[i]).tick + cadence
    {
    }
  }

  // A sample that is not counted leaves the streak alone, or empties it.
  lemma PassStreak(events: seq<Event>, streak: seq<nat>, n: nat, cadence: int, deadline: int)
    requires n < |events| && Streak(events, streak, n, cadence, deadline) && events[n].kind.Normal?
    ensures Streak(events, if events[n].truth then streak else [], n + 1, cadence, deadline)
  {
  }

  lemma TrackStart(events: seq<Event>, required: int, cadence: int, deadline: int)
    ensures Tracks(events, Watching(0, []), 0, required, cadence, deadline)
  {
  }

  lemma {:induction false} Tracking(events: seq<Event>, n: nat, required: int, cadence: int, deadline: int)
    requires n <= |events|
    ensures Tracks(events, After(events, n, required, cadence, deadline), n, required, cadence, deadline)
  {
    if n == 0 {
      TrackStart(events, required, cadence, deadline);
    } else {
      Tracking(events, n - 1, required, cadence, deadline);
      var s := After(events, n - 1, required, cadence, deadline);
      TrackStep(events, s, n - 1, required, cadence, deadline);
      var next := Step(s, events[n - 1], n + 1, required, cadence, deadline);
      assert After(events, n, required, cadence, deadline) == next;
    }
  }

  // A sample that counts: the streak grows by it, and is either complete or watched on.
  lemma TrackCounted(events: seq<Event>, last: int, streak: seq<nat>, n: nat, required: int, cadence: int,
                     deadline: int)
    requires n < |events| && Tracks(events, Watching(last, streak), n, required, cadence, deadline)
    requires events[n].kind.Normal? && events[n].truth && last + cadence <= events[n].tick <= deadline
    ensures Tracks(events, Watching(events[n].tick, streak + [n + 2]), n + 1, required, cadence, deadline)
    ensures |streak| + 1 == required ==>
      Tracks(events, Done(Report(Satisfied, n + 2, streak + [n + 2])), n + 1, required, cadence, deadline)
  {
    AppendStreak(events, streak, n, cadence, deadline);
  }

  // A normal sample that does not count.
  lemma TrackPassed(events: seq<Event>, last: int, streak: seq<nat>, n: nat, required: int, cadence: int, deadline: int)
    requires n < |events| && Tracks(events, Watching(last, streak), n, required, cadence, deadline)
    requires events[n].kind.Normal?
    ensures Tracks(events, Watching(last, if events[n].truth then streak else []), n + 1, required, cadence, deadline)
  {
    PassStreak(events, streak, n, cadence, deadline);
  }

  // A finished watch stays as it is.
  lemma TrackDone(events: seq<Event>, r: Report, n: nat, required: int, cadence: int, deadline: int)
    requires n < |events| && Tracks(events, Done(r), n, required, cadence, deadline)
    ensures Tracks(events, Done(r), n + 1, required, cadence, deadline)
  {
  }

  lemma TrackStep(events: seq<Event>, s: State, n: nat, required: int, cadence: int, deadline: int)
    requires n < |events| && Tracks(events, s, n, required, cadence, deadline)
    ensures Tracks(events, Step(s, events[n], n + 2, required, cadence, deadline), n + 1, required, cadence, deadline)
  {
    var e := events[n];
    match s
    case Done(r) => TrackDone(events, r, n, required, cadence, deadline);
    case Watching(last, streak) =>
      if e.kind.Normal? && e.tick <= deadline {
        if e.truth && e.tick >= last + cadence {
          TrackCounted(events, last, streak, n, required, cadence, deadline);
        } else {
          TrackPassed(events, last, streak, n, required, cadence, deadline);
        }
      }
  }

  // A satisfied report names the required number of true samples, spaced by the cadence, with no
  // false sample between them and none past the deadline; the last of them is the reported record.
  lemma SatisfiedIsStreak(events: seq<Event>, required: int, cadence: int, deadline: int)
    requires ReportOf(events, required, cadence, deadline).verdict.Satisfied?
    ensures var r := ReportOf(events, required, cadence, deadline);
            2 <= r.number < |events| + 2 && |r.streak| == required && r.streak != []
              && r.streak[|r.streak| - 1] == r.number &&
            Streak(events, r.streak, r.number - 1, cadence, deadline)
  {
    Tracking(events, |events|, required, cadence, deadline);
  }

  // ---- Cadence one on ticks 1 .. n: the earliest window of true samples.

  function Ticks(bits: seq<bool>): (events: seq<Event>)
    ensures |events| == |bits|
  {
    seq(|bits|, i requires 0 <= i < |bits| => Event(i + 1, bits[i], Normal))
  }

  predicate Window(bits: seq<bool>, required: nat, end: int) {
    required <= end <= |bits| && forall i :: end - required <= i < end ==> bits[i]
  }

  function Records(required: nat, end: nat): (s: seq<nat>)
    requires required <= end
  {
    seq(required, i requires 0 <= i < required => end - required + 2 + i)
  }

  // The search of the source over every window, from the left.
  method RunLengthOracle(bits: seq<bool>, required: nat) returns (r: Report)
    ensures match r.verdict
            case Satisfied =>
              && 1 <= r.number && Window(bits, required, r.number - 1) && r.streak == Records(required, r.number - 1)
              && forall end :: 0 <= end < r.number - 1 ==> !Window(bits, required, end)
            case Expired => r == Report(Expired, |bits| + 1, []) && forall end :: 0 <= end <= |bits| ==>
              !Window(bits, required, end)
            case _ => false
  {
    var end := required;
    while end <= |bits|
      invariant required <= end && forall k :: 0 <= k < end && k <= |bits| ==> !Window(bits, required, k)
    {
      var all := true;
      for i := end - required to end
        invariant all <==> forall k :: end - required <= k < i ==> bits[k]
      {
        all := all && bits[i];
      }
      if all { return Report(Satisfied, end + 1, Records(required, end)); }
      end := end + 1;
    }
    r := Report(Expired, |bits| + 1, []);
  }

  // How many samples at the end of a prefix are true.
  function Run(bits: seq<bool>, n: nat): (k: nat)
    requires n <= |bits|
    ensures k <= n
  {
    if n == 0 || !bits[n - 1] then 0 else Run(bits, n - 1) + 1
  }

  lemma {:induction false} RunIsWindow(bits: seq<bool>, n: nat, required: nat)
    requires n <= |bits|
    ensures Window(bits, required, n) <==> required <= Run(bits, n)
    decreases n
  {
    if n > 0 && required > 0 {
      RunIsWindow(bits, n - 1, required - 1);
      if bits[n - 1] {
        assert Window(bits, required, n) ==> Window(bits, required - 1, n - 1);
        assert Window(bits, required - 1, n - 1) ==> Window(bits, required, n);
      } else if Window(bits, required, n) {
        assert false;
      }
    }
  }

  // While no window has been seen the stream holds exactly the current run.
  lemma {:induction false} StreamIsRun(bits: seq<bool>, n: nat, required: nat)
    requires n <= |bits| && required >= 1 && (n == |bits| ==> n == 0)
    requires forall k :: 0 <= k <= n ==> Run(bits, k) < required
    ensures var s := After(Ticks(bits), n, required, 1, |bits|);
            s.Watching? && s.last <= n && s.streak == Records(Run(bits, n), n)
  {
    if n > 0 {
      StreamIsRun(bits, n - 1, required);
      var s := After(Ticks(bits), n - 1, required, 1, |bits|);
      if bits[n - 1] {
        assert Records(Run(bits, n), n) == Records(Run(bits, n - 1), n - 1) + [n + 1];
      }
    }
  }

  // The state right after the first window, or at the deadline without one.
  lemma FirstWindow(bits: seq<bool>, n: nat, required: nat)
    requires 1 <= n <= |bits| && required >= 1 && Run(bits, n) >= required
    requires forall k :: 0 <= k < n ==> Run(bits, k) < required
    ensures After(Ticks(bits), n, required, 1, |bits|) == Done(Report(Satisfied, n + 1, Records(required, n)))
  {
    StreamIsRun(bits, n - 1, required);
    assert Run(bits, n) == Run(bits, n - 1) + 1 == required;
    assert Records(required, n) == Records(Run(bits, n - 1), n - 1) + [n + 1];
  }

  lemma NoWindow(bits: seq<bool>, required: nat)
    requires |bits| >= 1 && required >= 1 && forall k :: 0 <= k <= |bits| ==> Run(bits, k) < required
    ensures After(Ticks(bits), |bits|, required, 1, |bits|) == Done(Report(Expired, |bits| + 1, []))
  {
    var n := |bits|;
    StreamIsRun(bits, n - 1, required);
    assert Run(bits, n) < required;
    assert bits[n - 1] ==> Run(bits, n) == Run(bits, n - 1) + 1;
    assert Ticks(bits)[n - 1] == Event(n, bits[n - 1], Normal);
  }

  // The streaming watch against the window search: they agree on every bit sequence exactly when
  // there is a sample and at least one is required.
  method Compare(bits: seq<bool>, required: nat) returns (streaming: Report, oracle: Report)
    ensures streaming == oracle <==> |bits| >= 1 && required >= 1
  {
    streaming := Model(Ticks(bits), required, 1, |bits|);
    oracle := RunLengthOracle(bits, required);
    forall end | 0 <= end <= |bits| ensures Window(bits, required, end) <==> required <= Run(bits, end) {
      RunIsWindow(bits, end, required);
    }
    if |bits| >= 1 && required >= 1 {
      if oracle.verdict.Satisfied? {
        var n := oracle.number - 1;
        forall k | 0 <= k < n ensures Run(bits, k) < required { assert !Window(bits, required, k); }
        assert n >= 1;
        FirstWindow(bits, n, required);
        DoneStays(Ticks(bits), n, |bits|, required, 1, |bits|);
      } else {
        forall k | 0 <= k <= |bits| ensures Run(bits, k) < required { assert !Window(bits, required, k); }
        NoWindow(bits, required);
      }
    } else if required == 0 {
      assert Window(bits, 0, 0);
      Tracking(Ticks(bits), |bits|, required, 1, |bits|);
    }
  }
}
