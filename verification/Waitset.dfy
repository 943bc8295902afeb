/** The subscriber that waits on a set of conditions and drains its reader with two separate
    take calls, samples arriving at any moment, also between the two. */
module Waitset {

  const HIGH_PRIORITY_THRESHOLD := 4

  /** `matches` is the middleware's verdict on the query condition; the labels do not use it. */
  datatype Sample = Sample(count: int, priority: int, valid: bool, matches: bool)

  datatype Label = Label(high: bool, count: int, priority: int)

  function LabelOf(s: Sample): Label {
    Label(s.priority > HIGH_PRIORITY_THRESHOLD, s.count, s.priority)
  }

  /** The labels that the valid samples deserve, each as often as it occurs. */
  function Labels(ss: seq<Sample>): multiset<Label> {
    if ss == [] then multiset{}
    else Labels(ss[..|ss| - 1]) + if ss[|ss| - 1].valid then multiset{LabelOf(ss[|ss| - 1])} else multiset{}
  }

  lemma {:induction false} LabelsConcat(a: seq<Sample>, b: seq<Sample>)
    ensures Labels(a + b) == Labels(a) + Labels(b)
  {
    if b == [] {
      assert a + b == a;
    } else {
      assert (a + b)[..|a + b| - 1] == a + b[..|b| - 1];
      LabelsConcat(a, b[..|b| - 1]);
    }
  }

  function Valids(ss: seq<Sample>): nat {
    if ss == [] then 0 else Valids(ss[..|ss| - 1]) + if ss[|ss| - 1].valid then 1 else 0
  }

  lemma {:induction false} ValidsAreLabels(ss: seq<Sample>)
    ensures |Labels(ss)| == Valids(ss)
  {
    if ss != [] {
      ValidsAreLabels(ss[..|ss| - 1]);
    }
  }

  // ---- The reader ----

  /** Up to `max` samples that match, and what stays behind. */
  function SplitMatching(queue: seq<Sample>, max: nat): (r: (seq<Sample>, seq<Sample>))
    ensures |r.0| <= max && |r.0| + |r.1| == |queue|
    ensures forall i :: 0 <= i < |r.0| ==> r.0[i].matches
  {
    if queue == [] then ([], [])
    else
      var n := |queue| - 1;
      var (taken, rest) := SplitMatching(queue[..n], max);
      if queue[n].matches && |taken| < max then (taken + [queue[n]], rest) else (taken, rest + [queue[n]])
  }

  /** The samples of a queue that match, in order, and the others. */
  function Matching(queue: seq<Sample>): seq<Sample> {
    if queue == [] then []
    else Matching(queue[..|queue| - 1]) + if queue[|queue| - 1].matches then [queue[|queue| - 1]] else []
  }

  function Others(queue: seq<Sample>): seq<Sample> {
    if queue == [] then []
    else Others(queue[..|queue| - 1]) + if queue[|queue| - 1].matches then [] else [queue[|queue| - 1]]
  }

  /** The query take returns the first matching samples, all of them if they are not too many,
      and leaves the others as they were. */
  lemma {:induction false} SplitTakesMatching(queue: seq<Sample>, max: nat)
    ensures SplitMatching(queue, max).0 ==
            if |Matching(queue)| <= max then Matching(queue) else Matching(queue)[..max]
    ensures |Matching(queue)| <= max ==> SplitMatching(queue, max).1 == Others(queue)
  {
    if queue != [] {
      SplitTakesMatching(queue[..|queue| - 1], max);
    }
  }

  lemma {:induction false} AllMatching(queue: seq<Sample>)
    requires forall i :: 0 <= i < |queue| ==> queue[i].matches
    ensures Matching(queue) == queue && Others(queue) == []
  {
    if queue != [] {
      AllMatching(queue[..|queue| - 1]);
    }
  }

  lemma {:induction false} NoneMatching(queue: seq<Sample>)
    requires forall i :: 0 <= i < |queue| ==> !queue[i].matches
    ensures Matching(queue) == [] && Others(queue) == queue
  {
    if queue != [] {
      var front, last := queue[..|queue| - 1], queue[|queue| - 1];
      NoneMatching(front);
      assert queue == front + [last];
    }
  }

  lemma {:induction false} MatchingConcat(a: seq<Sample>, b: seq<Sample>)
    ensures Matching(a + b) == Matching(a) + Matching(b)
    ensures Others(a + b) == Others(a) + Others(b)
  {
    if b == [] {
      assert a + b == a;
    } else {
      assert (a + b)[..|a + b| - 1] == a + b[..|b| - 1];
      MatchingConcat(a, b[..|b| - 1]);
    }
  }

  lemma {:induction false} SplitKeepsLabels(queue: seq<Sample>, max: nat)
    ensures Labels(SplitMatching(queue, max).0) + Labels(SplitMatching(queue, max).1) == Labels(queue)
  {
    if queue != [] {
      var n := |queue| - 1;
      SplitKeepsLabels(queue[..n], max);
      var (taken, rest) := SplitMatching(queue[..n], max);
      LabelsConcat(taken, [queue[n]]);
      LabelsConcat(rest, [queue[n]]);
      assert [queue[n]][..0] == [];
    }
  }

  class Reader {
    var queue: seq<Sample>

    constructor ()
      ensures queue == []
    {
      queue := [];
    }

    /** Samples come in from the receive thread. */
    method Arrive(ss: seq<Sample>)
      modifies this
      ensures queue == old(queue) + ss
    {
      queue := queue + ss;
    }

    method TakeWithCondition(max: nat) returns (taken: seq<Sample>)
      modifies this
      ensures (taken, queue) == SplitMatching(old(queue), max)
      ensures Labels(taken) + Labels(queue) == Labels(old(queue))
    {
      SplitKeepsLabels(queue, max);
      taken, queue := SplitMatching(queue, max).0, SplitMatching(queue, max).1;
    }

    method TakeAny(max: nat) returns (taken: seq<Sample>)
      modifies this
      ensures |taken| == if |old(queue)| <= max then |old(queue)| else max
      ensures taken == old(queue)[..|taken|] && queue == old(queue)[|taken|..]
      ensures Labels(taken) + Labels(queue) == Labels(old(queue))
    {
      var n := if |queue| <= max then |queue| else max;
      taken := queue[..n];
      LabelsConcat(taken, queue[n..]);
      assert taken + queue[n..] == queue;
      queue := queue[n..];
    }
  }

  // ---- The wait loop ----

  /** Why one wait returns: which of the attached conditions are among the active ones, and
      what the matched status would read. */
  datatype Result =
    | Timeout
    | WaitError
    | Active(guard: bool, status: bool, query: bool, read: bool, matched: int)

  /** One wait, with the samples that arrive before its first take call and those that
      arrive between its two take calls. */
  datatype Wake = Wake(result: Result, before: seq<Sample>, between: seq<Sample>)

  datatype Exit = Complete | WaitFailed | WatchdogFired | StillWaiting

  predicate Drains(w: Wake) {
    w.result.Active? && !w.result.guard && (w.result.query || w.result.read)
  }

  predicate LogsMatch(w: Wake) {
    w.result.Active? && !w.result.guard && w.result.status && w.result.matched > 0
  }

  /** How many samples a wait brings to the reader, how many of them are valid, and which
      labels those deserve. */
  function FreshCount(w: Wake): nat {
    |w.before| + if Drains(w) then |w.between| else 0
  }

  function FreshValids(w: Wake): nat {
    Valids(w.before) + if Drains(w) then Valids(w.between) else 0
  }

  function Fresh(w: Wake): multiset<Label> {
    Labels(w.before) + if Drains(w) then Labels(w.between) else multiset{}
  }

  /** How many samples have reached the reader during the first n waits. */
  function ArrivedCount(wakes: seq<Wake>, n: nat): nat
    requires n <= |wakes|
  {
    if n == 0 then 0 else ArrivedCount(wakes, n - 1) + FreshCount(wakes[n - 1])
  }

  function ArrivedValids(wakes: seq<Wake>, n: nat): nat
    requires n <= |wakes|
  {
    if n == 0 then 0 else ArrivedValids(wakes, n - 1) + FreshValids(wakes[n - 1])
  }

  /** The labels that the valid ones among them deserve. */
  function Arrived(wakes: seq<Wake>, n: nat): multiset<Label>
    requires n <= |wakes|
  {
    if n == 0 then multiset{} else Arrived(wakes, n - 1) + Fresh(wakes[n - 1])
  }

  predicate SomeWakeLogs(wakes: seq<Wake>, n: nat)
    requires n <= |wakes|
  {
    exists i :: 0 <= i < n && LogsMatch(wakes[i])
  }

  /** The lines that samples lead to, in their order. */
  function Lines(ss: seq<Sample>): seq<Label> {
    if ss == [] then []
    else Lines(ss[..|ss| - 1]) + if ss[|ss| - 1].valid then [LabelOf(ss[|ss| - 1])] else []
  }

  lemma {:induction false} LinesAreLabels(ss: seq<Sample>)
    ensures multiset(Lines(ss)) == Labels(ss)
  {
    if ss != [] {
      var front, last := Lines(ss[..|ss| - 1]), [LabelOf(ss[|ss| - 1])];
      LinesAreLabels(ss[..|ss| - 1]);
      assert multiset(front + last) == multiset(front) + multiset(last);
    }
  }

  /** Valid samples give one line each, at the same place, with what they carry. */
  lemma {:induction false} LinesOfValid(ss: seq<Sample>)
    requires forall i :: 0 <= i < |ss| ==> ss[i].valid
    ensures |Lines(ss)| == |ss|
    ensures forall i :: 0 <= i < |ss| ==> Lines(ss)[i] == Label(ss[i].priority > 4, ss[i].count, ss[i].priority)
  {
    if ss != [] {
      LinesOfValid(ss[..|ss| - 1]);
    }
  }

  /** Invalid samples give none. */
  lemma {:induction false} LinesSkipInvalid(ss: seq<Sample>, s: Sample, ts: seq<Sample>)
    requires !s.valid
    ensures Lines(ss + [s] + ts) == Lines(ss + ts)
  {
    if ts == [] {
      assert (ss + [s] + ts)[..|ss|] == ss && ss + ts == ss;
    } else {
      var n := |ts| - 1;
      assert (ss + [s] + ts)[..|ss| + 1 + n] == ss + [s] + ts[..n];
      assert (ss + ts)[..|ss| + n] == ss + ts[..n];
      LinesSkipInvalid(ss, s, ts[..n]);
    }
  }

  method PrintValid(ss: seq<Sample>) returns (lines: seq<Label>)
    ensures lines == Lines(ss)
    ensures multiset(lines) == Labels(ss)
  {
    lines := [];
    var i := 0;
    while i < |ss|
      invariant 0 <= i <= |ss| && lines == Lines(ss[..i])
    {
      assert ss[..i + 1][..i] == ss[..i];
      if ss[i].valid {
        if ss[i].priority > HIGH_PRIORITY_THRESHOLD {
          lines := lines + [Label(true, ss[i].count, ss[i].priority)];
        } else {
          lines := lines + [Label(false, ss[i].count, ss[i].priority)];
        }
      }
      i := i + 1;
    }
    assert ss[..i] == ss;
    LinesAreLabels(ss);
  }

  lemma Regroup(h: multiset<Label>, r: multiset<Label>, q: multiset<Label>,
                b: multiset<Label>, l: multiset<Label>, left: multiset<Label>)
    requires h + r == q && l + left == r + b
    ensures (h + l) + left == q + b
  {
    assert (h + l) + left == h + (l + left);
    assert h + (r + b) == (h + r) + b;
  }

  /** Counting both sides. */
  lemma Tally(lines: seq<Label>, left: seq<Sample>, queue: seq<Sample>, between: seq<Sample>)
    requires multiset(lines) + Labels(left) == Labels(queue) + Labels(between)
    ensures |lines| + Valids(left) == Valids(queue) + Valids(between)
  {
    ValidsAreLabels(left);
    ValidsAreLabels(queue);
    ValidsAreLabels(between);
    assert |multiset(lines)| == |lines|;
    assert |multiset(lines) + Labels(left)| == |multiset(lines)| + |Labels(left)|;
  }

  lemma {:induction false} ValidsConcat(a: seq<Sample>, b: seq<Sample>)
    ensures Valids(a + b) == Valids(a) + Valids(b)
  {
    if b == [] {
      assert a + b == a;
    } else {
      assert (a + b)[..|a + b| - 1] == a + b[..|b| - 1];
      ValidsConcat(a, b[..|b| - 1]);
    }
  }

  /** What cannot be taken when at most `max` can. */
  function Excess(n: nat, max: nat): nat {
    if n <= max then 0 else n - max
  }

  /** One drain: the matching samples first, then whatever is queued by then. */
  method DrainOnce(reader: Reader, between: seq<Sample>, expected: nat) returns (lines: seq<Label>)
    modifies reader
    ensures multiset(lines) + Labels(reader.queue) == Labels(old(reader.queue)) + Labels(between)
    ensures |lines| + Valids(reader.queue) == Valids(old(reader.queue)) + Valids(between)
    ensures |reader.queue| <= Excess(|old(reader.queue)| + |between|, expected)
    ensures var (high, rest) := SplitMatching(old(reader.queue), expected);
            var n := if |rest + between| <= expected then |rest + between| else expected;
            lines == Lines(high) + Lines((rest + between)[..n]) && reader.queue == (rest + between)[n..]
  {
    var high := reader.TakeWithCondition(expected);
    ghost var rest := Labels(reader.queue);
    LabelsConcat(reader.queue, between);
    reader.Arrive(between);
    var low := reader.TakeAny(expected);
    var highLines := PrintValid(high);
    var lowLines := PrintValid(low);
    lines := highLines + lowLines;
    Regroup(Labels(high), rest, Labels(old(reader.queue)), Labels(between), Labels(low), Labels(reader.queue));
    Tally(lines, reader.queue, old(reader.queue), between);
  }

  function ExitOf(r: Result): Exit {
    match r
    case Timeout => StillWaiting
    case WaitError => WaitFailed
    case Active(guard, _, _, _, _) => if guard then WatchdogFired else StillWaiting
  }

  predicate Fails(w: Wake) {
    ExitOf(w.result) != StillWaiting
  }

  /** None of the first n waits failed or was ended by the watchdog. */
  predicate NoFailure(wakes: seq<Wake>, n: nat)
    requires n <= |wakes|
  {
    forall i :: 0 <= i < n ==> !Fails(wakes[i])
  }

  lemma NoFailureStep(wakes: seq<Wake>, n: nat)
    requires n < |wakes|
    ensures NoFailure(wakes, n + 1) <==> NoFailure(wakes, n) && !Fails(wakes[n])
  {
  }

  /** What one wait leads to, with the samples around it. */
  method HandleWake(reader: Reader, wake: Wake, expected: nat, logged: bool)
    returns (lines: seq<Label>, logged': bool, exit: Exit)
    modifies reader
    ensures multiset(lines) + Labels(reader.queue) == Labels(old(reader.queue)) + Fresh(wake)
    ensures logged' <==> logged || LogsMatch(wake)
    ensures exit == ExitOf(wake.result)
    ensures |lines| + Valids(reader.queue) == Valids(old(reader.queue)) + FreshValids(wake)
    ensures !Drains(wake) ==> lines == [] && reader.queue == old(reader.queue) + wake.before
    ensures Drains(wake) ==>
              |reader.queue| <= Excess(|old(reader.queue)| + |wake.before| + |wake.between|, expected)
    ensures match wake.result
            case Timeout => exit == StillWaiting && logged' == logged
            case WaitError => exit == WaitFailed && logged' == logged
            case Active(guard, status, query, read, matched) =>
              && exit == (if guard then WatchdogFired else StillWaiting)
              && (logged' <==> logged || (!guard && status && matched > 0))
              && (!guard && (query || read) ==>
                    && |lines| + Valids(reader.queue)
                       == Valids(old(reader.queue)) + Valids(wake.before) + Valids(wake.between)
                    && (|old(reader.queue)| + |wake.before| + |wake.between| <= expected ==> reader.queue == []))
  {
    LabelsConcat(reader.queue, wake.before);
    ValidsConcat(reader.queue, wake.before);
    reader.Arrive(wake.before);
    lines, logged', exit := [], logged, StillWaiting;
    match wake.result
    case Timeout =>
    case WaitError => exit := WaitFailed;
    case Active(guard, status, query, read, matched) =>
      if guard {
        exit := WatchdogFired;
        return;
      }
      if !logged' && status && matched > 0 {
        logged' := true;
      }
      if query || read {
        lines := DrainOnce(reader, wake.between, expected);
      }
  }

  lemma Collect(printed: seq<Label>, lines: seq<Label>, before: multiset<Label>, arrived: multiset<Label>,
                news: multiset<Label>, left: multiset<Label>)
    requires multiset(printed) + before == arrived && multiset(lines) + left == before + news
    ensures multiset(printed + lines) + left == arrived + news
  {
    Regroup(multiset(printed), before, arrived, news, multiset(lines), left);
    assert multiset(printed + lines) == multiset(printed) + multiset(lines);
  }

  lemma SomeWakeLogsStep(wakes: seq<Wake>, n: nat)
    requires n < |wakes|
    ensures SomeWakeLogs(wakes, n + 1) <==> SomeWakeLogs(wakes, n) || LogsMatch(wakes[n])
  {
  }

  /** How many samples can still be queued after the first n waits, at most `max` leaving the
      queue at each draining one. */
  function Backlog(wakes: seq<Wake>, n: nat, max: nat): nat
    requires n <= |wakes|
  {
    if n == 0 then 0
    else
      var queued := Backlog(wakes, n - 1, max) + |wakes[n - 1].before|;
      if Drains(wakes[n - 1]) then Excess(queued + |wakes[n - 1].between|, max) else queued
  }

  lemma {:induction false} BacklogBelowArrived(wakes: seq<Wake>, n: nat, max: nat)
    requires n <= |wakes|
    ensures Backlog(wakes, n, max) <= ArrivedCount(wakes, n)
  {
    if n > 0 {
      BacklogBelowArrived(wakes, n - 1, max);
    }
  }

  /** As long as no more samples have arrived than one take can return, a draining wait leaves
      nothing behind. */
  lemma NoBacklog(wakes: seq<Wake>, n: nat, max: nat)
    requires 0 < n <= |wakes| && Drains(wakes[n - 1]) && ArrivedCount(wakes, n) <= max
    ensures Backlog(wakes, n, max) == 0
  {
    BacklogBelowArrived(wakes, n - 1, max);
  }

  /** By this wait enough valid samples have arrived, and it leaves none of them queued. */
  predicate Due(wakes: seq<Wake>, d: nat, expected: nat)
    requires d < |wakes|
  {
    Drains(wakes[d]) && Backlog(wakes, d + 1, expected) == 0 && ArrivedValids(wakes, d + 1) >= expected
  }

  /** No wait among the first n was due to complete the loop. */
  predicate NoneDue(wakes: seq<Wake>, n: nat, expected: nat)
    requires n <= |wakes|
  {
    n == 0 || (NoneDue(wakes, n - 1, expected) && !Due(wakes, n - 1, expected))
  }

  lemma {:induction false} NoneDueMeans(wakes: seq<Wake>, n: nat, expected: nat, d: nat)
    requires n <= |wakes| && NoneDue(wakes, n, expected) && d < n
    ensures !Due(wakes, d, expected)
  {
    if d < n - 1 {
      NoneDueMeans(wakes, n - 1, expected, d);
    }
  }

  /** Every valid sample of the first n waits is queued or printed, once, under its label. */
  predicate Accounted(printed: seq<Label>, queue: seq<Sample>, wakes: seq<Wake>, n: nat)
    requires n <= |wakes|
  {
    multiset(printed) + Labels(queue) == Arrived(wakes, n)
  }

  lemma AccountedNext(printed: seq<Label>, lines: seq<Label>, before: seq<Sample>, queue: seq<Sample>,
                      wakes: seq<Wake>, n: nat)
    requires n < |wakes| && Accounted(printed, before, wakes, n)
    requires multiset(lines) + Labels(queue) == Labels(before) + Fresh(wakes[n])
    ensures Accounted(printed + lines, queue, wakes, n + 1)
  {
    Collect(printed, lines, Labels(before), Arrived(wakes, n), Fresh(wakes[n]), Labels(queue));
  }

  /** What holds after n waits: every valid sample is printed or queued, no more is queued than
      the backlog, no wait that was due to complete the loop has been passed, and it was a
      draining wait that completed it. */
  predicate OnTime(wakes: seq<Wake>, expected: nat, n: nat, printed: nat, queue: seq<Sample>)
    requires n <= |wakes|
  {
    && printed + Valids(queue) == ArrivedValids(wakes, n)
    && |queue| <= Backlog(wakes, n, expected)
    && NoneDue(wakes, if printed >= expected && n > 0 then n - 1 else n, expected)
    && (printed >= expected > 0 ==> n > 0 && Drains(wakes[n - 1]))
  }

  lemma OnTimeStep(wakes: seq<Wake>, expected: nat, n: nat, printed: nat, queue: seq<Sample>)
    requires n < |wakes| && NoneDue(wakes, n, expected)
    requires printed + Valids(queue) == ArrivedValids(wakes, n + 1) && |queue| <= Backlog(wakes, n + 1, expected)
    requires printed >= expected ==> Drains(wakes[n])
    ensures OnTime(wakes, expected, n + 1, printed, queue)
  {
  }

  /** One round of the loop. */
  method WaitOnce(reader: Reader, expected: nat, wakes: seq<Wake>, n: nat, printed: seq<Label>, logged: bool)
    returns (printed': seq<Label>, logged': bool, exit: Exit)
    requires n < |wakes| && |printed| < expected
    requires Accounted(printed, reader.queue, wakes, n) && OnTime(wakes, expected, n, |printed|, reader.queue)
    requires logged <==> SomeWakeLogs(wakes, n)
    modifies reader
    ensures Accounted(printed', reader.queue, wakes, n + 1)
    ensures OnTime(wakes, expected, n + 1, |printed'|, reader.queue)
    ensures logged' <==> SomeWakeLogs(wakes, n + 1)
    ensures exit == ExitOf(wakes[n].result)
    ensures !Drains(wakes[n]) ==>
              |printed'| == |printed| && reader.queue == old(reader.queue) + wakes[n].before
  {
    SomeWakeLogsStep(wakes, n);
    ghost var before := reader.queue;
    var lines;
    lines, logged', exit := HandleWake(reader, wakes[n], expected, logged);
    AccountedNext(printed, lines, before, reader.queue, wakes, n);
    printed' := printed + lines;
    OnTimeStep(wakes, expected, n, |printed'|, reader.queue);
  }

  /** In every interleaving each valid sample that arrived is either still queued or was
      printed exactly once under the label that its own priority gives it, draining waits
      empty the queue as far as their takes reach, and the loop ends as complete at the first
      of them by which `expected` samples are printed. */
  method Receive(reader: Reader, expected: nat, wakes: seq<Wake>)
    returns (printed: seq<Label>, matchedLogged: bool, exit: Exit, used: nat)
    requires reader.queue == []
    modifies reader
    ensures used <= |wakes| && Accounted(printed, reader.queue, wakes, used)
    ensures OnTime(wakes, expected, used, |printed|, reader.queue)
    ensures exit == Complete <==> |printed| >= expected
    ensures exit == StillWaiting ==> used == |wakes|
    ensures exit == WaitFailed || exit == WatchdogFired ==>
              used > 0 && exit == ExitOf(wakes[used - 1].result) && NoFailure(wakes, used - 1)
    ensures exit == Complete || exit == StillWaiting ==> NoFailure(wakes, used)
    ensures matchedLogged <==> SomeWakeLogs(wakes, used)
  {
    printed, matchedLogged, used := [], false, 0;
    var received := 0;
    while received < expected
      invariant 0 <= used <= |wakes| && received == |printed|
      invariant Accounted(printed, reader.queue, wakes, used)
      invariant OnTime(wakes, expected, used, received, reader.queue)
      invariant matchedLogged <==> SomeWakeLogs(wakes, used)
      invariant NoFailure(wakes, used)
      decreases |wakes| - used
    {
      if used == |wakes| {
        exit := StillWaiting;
        return;
      }
      NoFailureStep(wakes, used);
      printed, matchedLogged, exit := WaitOnce(reader, expected, wakes, used, printed, matchedLogged);
      received := |printed|;
      used := used + 1;
      if exit != StillWaiting {
        return;
      }
    }
    exit := Complete;
  }

  // ---- The whole exchange ----

  function Batch(n: nat): seq<Sample> {
    seq(n, i requires 0 <= i < n => Sample(i, i, true, i > HIGH_PRIORITY_THRESHOLD))
  }

  /** What the publisher writes: priority = count. */
  method PublishBatch(n: nat) returns (written: seq<Sample>)
    ensures written == Batch(n)
  {
    written := [];
    var i := 0;
    while i < n
      invariant 0 <= i <= n && |written| == i
      invariant forall j :: 0 <= j < i ==> written[j] == Batch(n)[j]
    {
      written := written + [Sample(i, i, true, i > HIGH_PRIORITY_THRESHOLD)];
      i := i + 1;
    }
  }

  /** When exactly `expected` valid samples are published and the loop completes, nothing
      valid is left behind and the printed labels are those of the published samples, in
      whatever order and batches they came. */
  lemma CompleteMeansAll(published: seq<Sample>, arrived: multiset<Label>, queue: seq<Sample>,
                         printed: seq<Label>, expected: nat)
    requires arrived <= Labels(published) && |Labels(published)| == expected
    requires multiset(printed) + Labels(queue) == arrived && |printed| >= expected
    ensures multiset(printed) == Labels(published) == arrived && Labels(queue) == multiset{}
  {
    var p, q, all := multiset(printed), Labels(queue), Labels(published);
    assert |p| == |printed|;
    var missing := all - arrived;
    assert all == p + q + missing;
    assert |all| == |p| + |q| + |missing|;
    assert |q| == 0 && |missing| == 0;
  }

  /** Of a batch of n samples exactly those numbered above the threshold are printed as high
      priority. */
  lemma {:induction false} BatchLabels(n: nat)
    ensures |Labels(Batch(n))| == n
    ensures forall l :: Labels(Batch(n))[l] == if DueLabel(l, n) then 1 else 0
  {
    if n > 0 {
      BatchLabels(n - 1);
      assert Batch(n)[..n - 1] == Batch(n - 1);
      OneMoreDue(Labels(Batch(n - 1)), n);
    }
  }

  lemma OneMoreDue(labels: multiset<Label>, n: nat)
    requires n > 0 && forall l :: labels[l] == if DueLabel(l, n - 1) then 1 else 0
    ensures var last := Label(n - 1 > HIGH_PRIORITY_THRESHOLD, n - 1, n - 1);
            forall l :: (labels + multiset{last})[l] == if DueLabel(l, n) then 1 else 0
  {
  }

  /** The line that one of the n published samples deserves. */
  predicate DueLabel(l: Label, n: nat) {
    0 <= l.count < n && l.priority == l.count && l.high == (l.priority > 4)
  }

  /** Publisher and subscriber together: whatever the waits, the batches in which the written
      samples arrive, and the samples without data in between, a completed subscriber has
      printed the line of every published sample exactly once and nothing else, and left none
      behind. It completes exactly if there is a draining wait by which all have arrived and
      no wait up to it fails, at the first such, provided that not more arrived than one take
      returns. */
  method Exchange(reader: Reader, expected: nat, wakes: seq<Wake>)
    returns (printed: seq<Label>, exit: Exit, used: nat)
    requires reader.queue == [] && Arrived(wakes, |wakes|) <= Labels(Batch(expected))
    modifies reader
    ensures used <= |wakes|
    ensures exit == Complete ==>
              Labels(reader.queue) == multiset{}
              && forall l :: multiset(printed)[l] == if DueLabel(l, expected) then 1 else 0
    ensures forall l :: multiset(printed)[l] <= if DueLabel(l, expected) then 1 else 0
    ensures ArrivedCount(wakes, |wakes|) <= expected && expected > 0 ==>
              (exit == Complete <==> exists d: nat :: CompletesAt(wakes, d, expected))
              && (exit == Complete ==> used > 0 && CompletesAt(wakes, used - 1, expected)
                                       && forall d :: 0 <= d < used - 1 ==> !AllIn(wakes, d, expected))
  {
    var published := PublishBatch(expected);
    var logged;
    printed, logged, exit, used := Receive(reader, expected, wakes);
    WhatIsPrinted(wakes, used, printed, reader.queue, expected);
    if ArrivedCount(wakes, |wakes|) <= expected && expected > 0 {
      CompletesWhenAllIn(wakes, expected, used, exit);
    }
  }

  lemma WhatIsPrinted(wakes: seq<Wake>, used: nat, printed: seq<Label>, queue: seq<Sample>, expected: nat)
    requires used <= |wakes| && Accounted(printed, queue, wakes, used)
    requires Arrived(wakes, |wakes|) <= Labels(Batch(expected))
    ensures forall l :: multiset(printed)[l] <= if DueLabel(l, expected) then 1 else 0
    ensures |printed| >= expected ==>
              Labels(queue) == multiset{} && forall l :: multiset(printed)[l] == if DueLabel(l, expected) then 1 else 0
  {
    BatchLabels(expected);
    MoreArrives(wakes, used, |wakes|);
    var all := Labels(Batch(expected));
    assert multiset(printed) <= Arrived(wakes, used) <= all;
    assert forall l :: multiset(printed)[l] <= all[l];
    if |printed| >= expected {
      CompleteMeansAll(Batch(expected), Arrived(wakes, used), queue, printed, expected);
    }
  }

  lemma AllInIsDue(wakes: seq<Wake>, expected: nat, n: nat, d: nat)
    requires n <= |wakes| && NoneDue(wakes, n, expected) && d < n && ArrivedCount(wakes, |wakes|) <= expected
    ensures !AllIn(wakes, d, expected)
  {
    NoneDueMeans(wakes, n, expected, d);
    MoreArrives(wakes, d + 1, |wakes|);
    if Drains(wakes[d]) {
      NoBacklog(wakes, d + 1, expected);
    }
  }

  lemma CompletesWhenAllIn(wakes: seq<Wake>, expected: nat, used: nat, exit: Exit)
    requires used <= |wakes| && ArrivedCount(wakes, |wakes|) <= expected
    requires NoneDue(wakes, if exit == Complete && used > 0 then used - 1 else used, expected)
    requires match exit
             case Complete => CompletesAt(wakes, used - 1, expected)
             case StillWaiting => used == |wakes|
             case _ => used > 0 && Fails(wakes[used - 1])
    ensures exit == Complete <==> exists d: nat :: CompletesAt(wakes, d, expected)
    ensures exit == Complete ==> forall d :: 0 <= d < used - 1 ==> !AllIn(wakes, d, expected)
  {
    var n := if exit == Complete then used - 1 else used;
    forall d | 0 <= d < n
      ensures !AllIn(wakes, d, expected)
    {
      AllInIsDue(wakes, expected, n, d);
    }
    if exit == Complete {
      var d: nat := used - 1;
      assert CompletesAt(wakes, d, expected);
    }
  }

  /** A draining wait by which everything has arrived, with no failure up to it. */
  predicate CompletesAt(wakes: seq<Wake>, d: int, expected: nat) {
    AllIn(wakes, d, expected) && NoFailure(wakes, d + 1)
  }

  /** A draining wait by which every published sample has arrived. */
  predicate AllIn(wakes: seq<Wake>, d: int, expected: nat) {
    0 <= d < |wakes| && Drains(wakes[d]) && ArrivedValids(wakes, d + 1) >= expected
  }

  lemma {:induction false} MoreArrives(wakes: seq<Wake>, n: nat, m: nat)
    requires n <= m <= |wakes|
    ensures ArrivedCount(wakes, n) <= ArrivedCount(wakes, m)
    ensures Arrived(wakes, n) <= Arrived(wakes, m)
  {
    if n < m {
      MoreArrives(wakes, n, m - 1);
    }
  }

  // ---- Waits that tell the truth about the queue ----

  /** How many valid samples the first n waits bring, drained or not. */
  function CameIn(wakes: seq<Wake>, n: nat): nat
    requires n <= |wakes|
  {
    if n == 0 then 0
    else CameIn(wakes, n - 1) + Valids(wakes[n - 1].before) + Valids(wakes[n - 1].between)
  }

  function Offered(wakes: seq<Wake>, n: nat): nat
    requires n <= |wakes|
  {
    if n == 0 then 0 else Offered(wakes, n - 1) + |wakes[n - 1].before| + |wakes[n - 1].between|
  }

  /** A wait from an empty queue: the read condition is active exactly when something has
      arrived, the query condition exactly when something of it matches, a time-out means that
      nothing has; samples come between two takes only when there are takes. */
  predicate Truthful(w: Wake) {
    match w.result
    case Timeout => w.before == [] && w.between == []
    case WaitError => true
    case Active(guard, _, query, read, _) =>
      guard || ((read <==> w.before != [])
                && (query <==> exists i :: 0 <= i < |w.before| && w.before[i].matches)
                && (w.before == [] ==> w.between == []))
  }

  /** Neither an error nor the watchdog. */
  predicate GoesOn(w: Wake) {
    w.result.Timeout? || (w.result.Active? && !w.result.guard)
  }

  /** Everything has come in by wait d, and no wait up to it ends the loop. */
  predicate AllHere(wakes: seq<Wake>, d: nat, expected: nat) {
    && d < |wakes| && CameIn(wakes, d + 1) >= expected
    && forall i :: 0 <= i <= d ==> GoesOn(wakes[i])
  }

  lemma {:induction false} TruthfulArrivals(wakes: seq<Wake>, n: nat)
    requires n <= |wakes| && forall i :: 0 <= i < n ==> Truthful(wakes[i]) && GoesOn(wakes[i])
    ensures ArrivedValids(wakes, n) == CameIn(wakes, n)
  {
    if n > 0 {
      TruthfulArrivals(wakes, n - 1);
    }
  }

  lemma {:induction false} FewArrive(wakes: seq<Wake>, n: nat)
    requires n <= |wakes|
    ensures ArrivedCount(wakes, n) <= Offered(wakes, n)
  {
    if n > 0 {
      FewArrive(wakes, n - 1);
    }
  }

  /** Before each wait the queue is empty, so that Truthful speaks of the queue as it is. */
  lemma {:induction false} QueueIsEmptyBefore(wakes: seq<Wake>, n: nat, expected: nat)
    requires n <= |wakes| && Offered(wakes, n) <= expected
    requires forall i :: 0 <= i < n ==> Truthful(wakes[i]) && GoesOn(wakes[i])
    ensures Backlog(wakes, n, expected) == 0
  {
    if n > 0 {
      QueueIsEmptyBefore(wakes, n - 1, expected);
    }
  }

  lemma {:induction false} FirstAllHere(wakes: seq<Wake>, d: nat, expected: nat) returns (e: nat)
    requires AllHere(wakes, d, expected) && expected > 0
    requires forall i :: 0 <= i < |wakes| ==> Truthful(wakes[i])
    ensures e <= d && AllHere(wakes, e, expected) && wakes[e].before != []
  {
    if d > 0 && CameIn(wakes, d) >= expected {
      e := FirstAllHere(wakes, d - 1, expected);
    } else {
      e := d;
      assert Truthful(wakes[d]) && GoesOn(wakes[d]);
      assert CameIn(wakes, d) < expected;
    }
  }

  lemma AllHereCompletes(wakes: seq<Wake>, expected: nat)
    requires expected > 0 && forall i :: 0 <= i < |wakes| ==> Truthful(wakes[i])
    ensures (exists d: nat :: CompletesAt(wakes, d, expected)) <==> (exists d: nat :: AllHere(wakes, d, expected))
  {
    if exists d: nat :: CompletesAt(wakes, d, expected) {
      var d: nat :| CompletesAt(wakes, d, expected);
      forall i | 0 <= i <= d
        ensures GoesOn(wakes[i])
      {
        assert !Fails(wakes[i]);
      }
      TruthfulArrivals(wakes, d + 1);
      assert AllHere(wakes, d, expected);
    }
    if exists d: nat :: AllHere(wakes, d, expected) {
      var d: nat :| AllHere(wakes, d, expected);
      var e := FirstAllHere(wakes, d, expected);
      TruthfulArrivals(wakes, e + 1);
      assert CompletesAt(wakes, e, expected);
    }
  }

  /** When the conditions tell the truth and no more samples come than one take returns, the
      subscriber completes exactly when all samples of the batch come in before an error or
      the watchdog, whatever their priorities and whichever condition announces them. */
  method ExchangeTruthfully(reader: Reader, expected: nat, wakes: seq<Wake>)
    returns (printed: seq<Label>, exit: Exit, used: nat)
    requires reader.queue == [] && Arrived(wakes, |wakes|) <= Labels(Batch(expected))
    requires expected > 0 && Offered(wakes, |wakes|) <= expected
    requires forall i :: 0 <= i < |wakes| ==> Truthful(wakes[i])
    modifies reader
    ensures exit == Complete <==> exists d: nat :: AllHere(wakes, d, expected)
    ensures exit == Complete ==> forall l :: multiset(printed)[l] == if DueLabel(l, expected) then 1 else 0
  {
    printed, exit, used := Exchange(reader, expected, wakes);
    FewArrive(wakes, |wakes|);
    AllHereCompletes(wakes, expected);
  }
}
