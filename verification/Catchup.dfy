/** What the catch-up handshake guarantees, in every interleaving. */
module Catchup {
  import opened CatchupModel

  // ---- The publisher's gates ----

  /** How many of the logged counts have reached matched_current_count. */
  function Stored(p: Publisher): int {
    if p.callback.StoreCount? then |p.log| - 1 else |p.log|
  }

  predicate SomePositive(log: seq<nat>) {
    exists i :: 0 <= i < |log| && log[i] > 0
  }

  predicate PositiveThenZero(log: seq<nat>) {
    exists i, j :: 0 <= i < j < |log| && log[i] > 0 && log[j] == 0
  }

  predicate GateOk(p: Publisher) {
    && Stored(p) >= 0
    && (p.callback.StoreCount? ==> p.callback.c == p.log[|p.log| - 1])
    && p.matchedCount == (if Stored(p) == 0 then 0 else p.log[Stored(p) - 1])
    && (p.callback.StoreEver? ==> p.matchedCount > 0)
    && (p.everMatched ==> SomePositive(p.log[..Stored(p)]))
    && (!p.everMatched ==> !SomePositive(p.log[..Stored(p) - One(p.callback.StoreEver? && Stored(p) > 0)]))
    && (p.pc.WriteLive? || p.pc.LoadEver? || p.pc.LoadCount? || p.pc.PubDone? ==> p.everMatched)
    && (p.pc.PubDone? ==> PositiveThenZero(p.log))
  }

  function One(b: bool): nat {
    if b then 1 else 0
  }

  predicate WrittenOk(c: Config, p: Publisher) {
    match p.pc
    case WriteHistorical => p.written <= c.historical
    case LoadEverForMatch => p.written == c.historical
    case WriteLive => c.historical <= p.written <= Total(c)
    case PubFailed => p.written <= Total(c)
    case _ => p.written == Total(c)
  }

  lemma PublisherStepGate(c: Config, p: Publisher)
    requires GateOk(p)
    ensures GateOk(StepPublisher(c, p))
  {
    if p.pc.LoadCount? && p.matchedCount == 0 {
      var before := p.log[..Stored(p)];
      var i :| 0 <= i < |before| && before[i] > 0;
      assert p.log[i] > 0 && p.log[Stored(p) - 1] == 0;
    }
  }

  lemma NotifyGate(p: Publisher, n: nat)
    requires GateOk(p) && p.callback == Waiting
    ensures GateOk(p.(callback := StoreCount(n), log := p.log + [n]))
  {
    var p' := p.(callback := StoreCount(n), log := p.log + [n]);
    assert p'.log[..Stored(p')] == p.log[..Stored(p)];
    if PositiveThenZero(p.log) {
      var i, j :| 0 <= i < j < |p.log| && p.log[i] > 0 && p.log[j] == 0;
      assert p'.log[i] > 0 && p'.log[j] == 0;
    }
  }

  lemma CallbackGate(p: Publisher)
    requires GateOk(p) && p.callback != Waiting
    ensures GateOk(StepCallback(p))
  {
    var p' := StepCallback(p);
    var before, after := p.log[..Stored(p)], p.log[..Stored(p')];
    if p.callback.StoreCount? {
      assert after == before + [p.callback.c];
      assert after[..Stored(p)] == before;
      if SomePositive(before) {
        var i :| 0 <= i < |before| && before[i] > 0;
        assert after[i] > 0;
      }
    } else {
      assert after[Stored(p) - 1] > 0;
    }
  }

  lemma StepKeepsGate(c: Config, s: State, a: Action)
    requires GateOk(s.pub) && Enabled(c, s, a)
    ensures GateOk(Step(c, s, a).pub)
  {
    match a
    case PubStep => PublisherStepGate(c, s.pub);
    case Notify(n) => NotifyGate(s.pub, n);
    case CallbackStep => CallbackGate(s.pub);
    case _ =>
  }

  lemma StepKeepsWritten(c: Config, s: State, a: Action)
    requires WrittenOk(c, s.pub) && Enabled(c, s, a)
    ensures WrittenOk(c, Step(c, s, a).pub)
  {
  }

  // ---- The subscriber's flags ----

  predicate AllBelow(flags: seq<bool>, n: nat) {
    n <= |flags| && forall i :: 0 <= i < n ==> flags[i]
  }

  predicate AllSet(flags: seq<bool>) {
    AllBelow(flags, |flags|)
  }

  predicate Became(l: ListenerPc) {
    match l
    case Take(b) => b
    case StoreHistorical(_, b) => b
    case StoreLive(_, b) => b
    case LoadDone(b) => b
    case StoreDone => true
    case _ => false
  }

  /** The sample that the listener has taken and not flagged yet, -1 when there is none. */
  function InHand(c: Config, l: ListenerPc): int {
    match l
    case StoreHistorical(n, _) => n
    case StoreLive(n, _) => c.historical + n
    case _ => -1
  }

  predicate SizesOk(c: Config, u: Subscriber) {
    && |u.historical| == c.historical && |u.live| == c.live
    && (u.listener.StoreHistorical? ==> u.listener.n < c.historical)
    && (u.listener.StoreLive? ==> u.listener.n < c.live)
  }

  predicate Flagged(c: Config, u: Subscriber, n: nat)
    requires SizesOk(c, u)
  {
    if n < c.historical then u.historical[n] else n < Total(c) && u.live[n - c.historical]
  }

  /** What has been taken is flagged or in the listener's hand, and nothing else is. */
  ghost predicate FlagsOk(c: Config, u: Subscriber) {
    && SizesOk(c, u)
    && (forall n: nat :: n in u.taken ==> n in u.delivered)
    && forall n: nat :: n in u.taken <==> n == InHand(c, u.listener) || Flagged(c, u, n)
  }

  predicate Complete(u: Subscriber) {
    u.confirmed && AllSet(u.historical) && AllSet(u.live)
  }

  predicate MainOk(u: Subscriber) {
    && (u.confirmed ==> AllSet(u.historical))
    && (u.allDone ==> Complete(u))
    && match u.main
       case CreateReader => u.reader == Absent && !u.confirmed
       case WaitForHistorical => !u.confirmed
       case CountHistorical(i, n) => !u.confirmed && n <= i <= |u.historical| && (n == i ==> AllBelow(u.historical, i))
       case StoreConfirmed => !u.confirmed && AllSet(u.historical)
       case MainLoadConfirmed => u.confirmed
       case MainScan(i) => u.confirmed && AllBelow(u.live, i)
       case MainStoreDone => Complete(u)
       case Poll => u.confirmed
       case DeleteReader => u.allDone
       case MainDone => u.allDone && (u.reader == Deleted || u.reader == Unmatched)
  }

  predicate ListenerOk(u: Subscriber) {
    && (Became(u.listener) ==> Complete(u))
    && (u.listener.Scan? ==> u.confirmed && AllBelow(u.live, u.listener.i))
  }

  /** The listener is on its way to storing all_done, provided every flag is set. */
  predicate Owes(l: ListenerPc) {
    Became(l) || l.LoadDone? || l.LoadConfirmed? || l.Scan?
  }

  predicate MainHasChecked(u: Subscriber) {
    u.main.Poll? || u.main.DeleteReader? || u.main.MainDone?
  }

  predicate NothingLost(u: Subscriber) {
    MainHasChecked(u) && Complete(u) && !u.allDone ==> Owes(u.listener)
  }

  predicate ReaderOk(u: Subscriber) {
    && (u.reader == Deleted ==> u.main == MainDone)
    && (u.failure == None && u.reader == Unmatched ==> u.main == MainDone)
    && (u.reader == Absent || u.reader == Created ==> u.delivered == {})
    && (u.reader == Absent <==> u.main == CreateReader)
    && (u.main != CreateReader && u.main != WaitForHistorical ==> u.reader != Absent && u.reader != Created)
    && u.failure != UnexpectedSample
  }

  ghost predicate SubOk(c: Config, u: Subscriber) {
    FlagsOk(c, u) && MainOk(u) && ListenerOk(u) && NothingLost(u) && ReaderOk(u)
  }

  predicate ChannelOk(s: State) {
    forall n: nat :: n in s.sub.delivered ==> n < s.pub.written
  }

  ghost predicate Inv(c: Config, s: State) {
    GateOk(s.pub) && WrittenOk(c, s.pub) && SubOk(c, s.sub) && ChannelOk(s)
  }

  lemma InitInv(c: Config)
    ensures Inv(c, Init(c))
  {
  }

  // ---- Steps of the subscriber's main ----

  lemma MainStepMain(c: Config, u: Subscriber)
    requires SizesOk(c, u) && MainOk(u) && (u.main == WaitForHistorical ==> u.reader == Matched)
    ensures MainOk(StepMain(c, u))
  {
  }

  lemma MainStepListener(c: Config, u: Subscriber)
    requires SizesOk(c, u) && MainOk(u) && ListenerOk(u) && NothingLost(u)
    ensures ListenerOk(StepMain(c, u)) && NothingLost(StepMain(c, u))
  {
  }

  lemma MainStepReader(c: Config, u: Subscriber)
    requires ReaderOk(u) && MainOk(u) && u.failure == None
    requires u.main == WaitForHistorical ==> u.reader == Matched
    ensures ReaderOk(StepMain(c, u))
  {
  }

  lemma MainStepOk(c: Config, u: Subscriber)
    requires SubOk(c, u) && u.failure == None && (u.main == WaitForHistorical ==> u.reader == Matched)
    ensures SubOk(c, StepMain(c, u))
  {
    MainStepMain(c, u);
    MainStepListener(c, u);
    MainStepReader(c, u);
    FlagsKept(c, u, StepMain(c, u));
  }

  /** Steps that touch neither the flags nor the samples. */
  lemma FlagsKept(c: Config, u: Subscriber, u': Subscriber)
    requires FlagsOk(c, u) && u'.historical == u.historical && u'.live == u.live
    requires u'.taken == u.taken && u.delivered <= u'.delivered
    requires InHand(c, u'.listener) == InHand(c, u.listener)
    requires u'.listener == u.listener || InHand(c, u'.listener) == -1
    ensures FlagsOk(c, u')
  {
    forall n: nat
      ensures n in u'.taken <==> n == InHand(c, u'.listener) || Flagged(c, u', n)
    {
      assert Flagged(c, u', n) == Flagged(c, u, n);
    }
  }

  // ---- Steps of the listener ----

  lemma TakeFlags(c: Config, u: Subscriber, n: nat)
    requires FlagsOk(c, u) && u.listener.Take? && n in u.delivered && n < Total(c)
    ensures FlagsOk(c, StepTake(c, u, n))
  {
    var u' := StepTake(c, u, n);
    forall m: nat
      ensures m in u'.taken <==> m == InHand(c, u'.listener) || Flagged(c, u', m)
    {
      assert Flagged(c, u', m) == Flagged(c, u, m);
    }
  }

  lemma ListenerStepFlags(c: Config, u: Subscriber)
    requires FlagsOk(c, u)
    ensures FlagsOk(c, StepListener(u))
  {
    var u' := StepListener(u);
    if u.listener.StoreHistorical? || u.listener.StoreLive? {
      forall n: nat
        ensures n in u'.taken <==> Flagged(c, u', n)
      {
        assert Flagged(c, u', n) <==> n == InHand(c, u.listener) || Flagged(c, u, n);
      }
    } else {
      FlagsKept(c, u, u');
    }
  }

  /** Flags are never taken back. */
  predicate Grows(u: Subscriber, u': Subscriber) {
    && u'.main == u.main && u'.reader == u.reader && u'.confirmed == u.confirmed
    && |u'.historical| == |u.historical| && |u'.live| == |u.live|
    && (forall i :: 0 <= i < |u.historical| && u.historical[i] ==> u'.historical[i])
    && (forall i :: 0 <= i < |u.live| && u.live[i] ==> u'.live[i])
  }

  lemma ListenerStepGrows(c: Config, u: Subscriber)
    requires SizesOk(c, u)
    ensures Grows(u, StepListener(u))
  {
  }

  /** Main's knowledge survives whatever the listener does. */
  lemma MainOkGrows(u: Subscriber, u': Subscriber)
    requires MainOk(u) && Grows(u, u')
    requires u'.allDone == u.allDone || (u'.allDone && Complete(u))
    ensures MainOk(u')
  {
  }

  lemma ListenerStepListener(c: Config, u: Subscriber)
    requires SizesOk(c, u) && MainOk(u) && ListenerOk(u)
    ensures ListenerOk(StepListener(u))
  {
    ListenerStepGrows(c, u);
  }

  lemma ListenerStepLosesNothing(c: Config, u: Subscriber)
    requires SizesOk(c, u) && MainOk(u) && ListenerOk(u) && NothingLost(u)
    ensures NothingLost(StepListener(u))
  {
    if u.listener.StoreHistorical? && u.confirmed {
      assert StepListener(u).historical == u.historical;
    }
  }

  lemma ListenerStepOk(c: Config, u: Subscriber)
    requires SubOk(c, u)
    ensures SubOk(c, StepListener(u))
  {
    ListenerStepFlags(c, u);
    ListenerStepGrows(c, u);
    MainOkGrows(u, StepListener(u));
    ListenerStepListener(c, u);
    ListenerStepLosesNothing(c, u);
  }

  lemma TakeOk(c: Config, u: Subscriber, n: nat)
    requires SubOk(c, u) && u.listener.Take? && n in u.delivered && n < Total(c)
    ensures SubOk(c, StepTake(c, u, n))
  {
    TakeFlags(c, u, n);
  }

  // ---- All steps ----

  lemma CallbackKeepsSub(c: Config, s: State, a: Action)
    requires SubOk(c, s.sub) && Enabled(c, s, a) && (a.ListenerStart? || a.TakeNoData?)
    ensures SubOk(c, Step(c, s, a).sub)
  {
    FlagsKept(c, s.sub, Step(c, s, a).sub);
  }

  lemma ChannelKeepsSub(c: Config, s: State, a: Action)
    requires SubOk(c, s.sub) && Enabled(c, s, a) && (a.Match? || a.Deliver? || a.Unmatch?)
    ensures SubOk(c, Step(c, s, a).sub)
  {
    FlagsKept(c, s.sub, Step(c, s, a).sub);
  }

  lemma FailureKeepsSub(c: Config, u: Subscriber, f: Failure)
    requires SubOk(c, u) && u.failure == None && f != UnexpectedSample
    ensures SubOk(c, u.(failure := f))
  {
    FlagsKept(c, u, u.(failure := f));
  }

  lemma SubStepOk(c: Config, s: State, a: Action)
    requires Inv(c, s) && Enabled(c, s, a)
    ensures SubOk(c, Step(c, s, a).sub)
  {
    match a
    case MainStep => MainStepOk(c, s.sub);
    case ListenerStep => ListenerStepOk(c, s.sub);
    case TakeSample(n) => TakeOk(c, s.sub, n);
    case ListenerStart => CallbackKeepsSub(c, s, a);
    case TakeNoData => CallbackKeepsSub(c, s, a);
    case Match => ChannelKeepsSub(c, s, a);
    case Deliver(_) => ChannelKeepsSub(c, s, a);
    case Unmatch => ChannelKeepsSub(c, s, a);
    case MainTimeout => FailureKeepsSub(c, s.sub, TimedOut);
    case TakeFails => FailureKeepsSub(c, s.sub, TakeError);
    case _ =>
  }

  lemma ChannelStepOk(c: Config, s: State, a: Action)
    requires ChannelOk(s) && Enabled(c, s, a)
    ensures ChannelOk(Step(c, s, a))
  {
    assert Step(c, s, a).pub.written >= s.pub.written;
  }

  lemma StepKeepsInv(c: Config, s: State, a: Action)
    requires Inv(c, s) && Enabled(c, s, a)
    ensures Inv(c, Step(c, s, a))
  {
    StepKeepsGate(c, s, a);
    StepKeepsWritten(c, s, a);
    SubStepOk(c, s, a);
    ChannelStepOk(c, s, a);
  }

  // ---- Whole runs ----

  lemma {:induction false} RunKeepsInv(c: Config, ss: seq<State>, acts: seq<Action>, k: nat)
    requires Run(c, ss, acts) && k < |ss|
    ensures Inv(c, ss[k])
  {
    if k == 0 {
      InitInv(c);
    } else {
      RunKeepsInv(c, ss, acts, k - 1);
      assert StepOf(c, ss[k - 1], acts[k - 1], ss[k]);
      StepKeepsInv(c, ss[k - 1], acts[k - 1]);
    }
  }

  /** The publisher leaves its drain loop only after a callback that reported a match and
      a later one that reported none, whatever counts the callbacks report. */
  lemma DrainGate(c: Config, ss: seq<State>, acts: seq<Action>, k: nat)
    requires Run(c, ss, acts) && k < |ss| && ss[k].pub.pc == PubDone
    ensures exists i, j :: 0 <= i < j < |ss[k].pub.log| && ss[k].pub.log[i] > 0 && ss[k].pub.log[j] == 0
  {
    RunKeepsInv(c, ss, acts, k);
  }

  /** all_done is never premature: main has confirmed the historical batch, and every flag
      of both batches is set, each by a sample that was taken. */
  lemma AllDoneIsEarned(c: Config, ss: seq<State>, acts: seq<Action>, k: nat)
    requires Run(c, ss, acts) && k < |ss| && ss[k].sub.allDone
    ensures var u := ss[k].sub;
            && u.confirmed
            && |u.historical| == c.historical && (forall i :: 0 <= i < c.historical ==> u.historical[i])
            && |u.live| == c.live && (forall i :: 0 <= i < c.live ==> u.live[i])
            && forall n: nat :: n < Total(c) ==> n in u.taken
  {
    RunKeepsInv(c, ss, acts, k);
    AllSetMeansTaken(c, ss[k].sub);
  }

  lemma AllSetMeansTaken(c: Config, u: Subscriber)
    requires FlagsOk(c, u) && AllSet(u.historical) && AllSet(u.live)
    ensures forall n: nat :: n < Total(c) ==> n in u.taken
  {
    forall n: nat | n < Total(c)
      ensures n in u.taken
    {
      assert Flagged(c, u, n);
    }
  }

  lemma AllTakenMeansSet(c: Config, u: Subscriber)
    requires FlagsOk(c, u) && InHand(c, u.listener) == -1 && TakenAll(c, u)
    ensures AllSet(u.historical) && AllSet(u.live)
  {
    forall i: nat | i < c.historical
      ensures u.historical[i]
    {
      assert Flagged(c, u, i);
    }
    forall i: nat | i < c.live
      ensures u.live[i]
    {
      assert Flagged(c, u, c.historical + i);
    }
  }

  predicate TakenAll(c: Config, u: Subscriber) {
    forall n: nat :: n < Total(c) ==> n in u.taken
  }

  /** Main counts one flag at a time while the listener stores others; a full count still
      means that all the flags are set at once. */
  lemma FullCountMeansAllFlags(c: Config, ss: seq<State>, acts: seq<Action>, k: nat)
    requires Run(c, ss, acts) && k < |ss|
    requires ss[k].sub.main == CountHistorical(c.historical, c.historical)
    ensures |ss[k].sub.historical| == c.historical
    ensures forall i :: 0 <= i < c.historical ==> ss[k].sub.historical[i]
  {
    RunKeepsInv(c, ss, acts, k);
  }

  /** No lost completion: once main has made its own check and the listener has left its
      take loop with every sample taken, all_done is true, whatever the order in which the
      samples came and however often. */
  lemma NoLostCompletion(c: Config, ss: seq<State>, acts: seq<Action>, k: nat)
    requires Run(c, ss, acts) && k < |ss|
    requires MainHasChecked(ss[k].sub) && ss[k].sub.listener == Idle && TakenAll(c, ss[k].sub)
    ensures ss[k].sub.allDone
  {
    RunKeepsInv(c, ss, acts, k);
    AllTakenMeansSet(c, ss[k].sub);
  }

  /** The listener never indexes past its flags and never meets a number it does not know:
      inside its loop only an empty queue or a failed process can stop it. */
  lemma ListenerIsSafe(c: Config, ss: seq<State>, acts: seq<Action>, k: nat)
    requires Run(c, ss, acts) && k < |ss|
    ensures ss[k].sub.failure != UnexpectedSample
    ensures ss[k].sub.failure == None && ss[k].sub.listener != Idle ==>
              ss[k].sub.listener.Take? || Enabled(c, ss[k], ListenerStep)
  {
    RunKeepsInv(c, ss, acts, k);
  }

  /** The listener commits all_done on leaving its take loop for good: the step that stores
      it ends the callback, and only a callback that starts later takes from the reader again. */
  lemma {:induction false} ListenerCommitsLast(c: Config, ss: seq<State>, acts: seq<Action>, k: nat, j: nat)
    requires Run(c, ss, acts) && k < j < |ss| && acts[k] != MainStep
    requires !ss[k].sub.allDone && ss[k + 1].sub.allDone
    ensures ss[j].sub.listener != Idle ==> exists i :: k < i < j && acts[i] == ListenerStart
  {
    assert StepOf(c, ss[k], acts[k], ss[k + 1]);
    if j > k + 1 {
      ListenerCommitsLast(c, ss, acts, k, j - 1);
      assert StepOf(c, ss[j - 1], acts[j - 1], ss[j]);
    }
  }

  // ---- End to end ----

  /** Once some callback has reported a match, a count of 0 is reported only after the
      subscriber's reader is gone. Other readers may come and go while it is matched, but
      none may come and go before it: see OtherReaderEndsDrain. */
  predicate HonestStep(s: State, a: Action) {
    a == Notify(0) && SomePositive(s.pub.log) ==> s.sub.reader == Unmatched
  }

  predicate HonestRun(c: Config, ss: seq<State>, acts: seq<Action>) {
    Run(c, ss, acts) && forall i {:trigger acts[i]} :: 0 <= i < |acts| ==> HonestStep(ss[i], acts[i])
  }

  lemma ReaderAlwaysOk(c: Config, ss: seq<State>, acts: seq<Action>, k: nat)
    requires Run(c, ss, acts) && k < |ss|
    ensures ReaderOk(ss[k].sub)
  {
    RunKeepsInv(c, ss, acts, k);
  }

  lemma UnmatchedStays(c: Config, s: State, a: Action)
    requires ReaderOk(s.sub) && Enabled(c, s, a) && s.sub.reader == Unmatched
    ensures Step(c, s, a).sub.reader == Unmatched
  {
  }

  lemma LogGrows(c: Config, s: State, a: Action)
    requires Enabled(c, s, a) && HonestStep(s, a)
    ensures PositiveThenZero(Step(c, s, a).pub.log) ==> PositiveThenZero(s.pub.log) || s.sub.reader == Unmatched
  {
    if a.Notify? {
      var log := s.pub.log;
      assert forall i :: 0 <= i < |log| ==> (log + [a.count])[i] == log[i];
    }
  }

  predicate ZeroExplained(s: State) {
    PositiveThenZero(s.pub.log) ==> s.sub.reader == Unmatched
  }

  lemma ZeroStaysExplained(c: Config, s: State, a: Action, s': State)
    requires ReaderOk(s.sub) && StepOf(c, s, a, s') && HonestStep(s, a) && ZeroExplained(s)
    ensures ZeroExplained(s')
  {
    LogGrows(c, s, a);
    if s.sub.reader == Unmatched {
      UnmatchedStays(c, s, a);
    }
  }

  lemma HonestAt(c: Config, ss: seq<State>, acts: seq<Action>, i: nat)
    requires HonestRun(c, ss, acts) && i < |acts|
    ensures StepOf(c, ss[i], acts[i], ss[i + 1]) && HonestStep(ss[i], acts[i])
  {
  }

  lemma {:induction false} ZeroAlwaysExplained(c: Config, ss: seq<State>, acts: seq<Action>, k: nat)
    requires HonestRun(c, ss, acts) && k < |ss|
    ensures ZeroExplained(ss[k])
  {
    if k > 0 {
      ZeroAlwaysExplained(c, ss, acts, k - 1);
      ZeroExplainedNext(c, ss, acts, k - 1);
    }
  }

  lemma ZeroExplainedNext(c: Config, ss: seq<State>, acts: seq<Action>, k: nat)
    requires HonestRun(c, ss, acts) && k < |acts| && ZeroExplained(ss[k])
    ensures ZeroExplained(ss[k + 1])
  {
    ReaderAlwaysOk(c, ss, acts, k);
    HonestAt(c, ss, acts, k);
    ZeroStaysExplained(c, ss[k], acts[k], ss[k + 1]);
  }

  predicate Finished(c: Config, u: Subscriber) {
    u.main == MainDone && u.allDone && TakenAll(c, u)
  }

  /** End to end, for a subscriber process that may also be lost at any point: when the
      publisher passes its drain wait, the subscriber has taken every sample of both batches,
      confirmed the first and deleted its reader, unless its process failed before it got
      to the deletion. */
  lemma DrainedMeansDelivered(c: Config, ss: seq<State>, acts: seq<Action>, k: nat)
    requires HonestRun(c, ss, acts) && k < |ss| && ss[k].pub.pc == PubDone
    ensures Finished(c, ss[k].sub) || (ss[k].sub.failure != None && ss[k].sub.main != MainDone)
  {
    RunKeepsInv(c, ss, acts, k);
    ZeroAlwaysExplained(c, ss, acts, k);
    if ss[k].sub.main == MainDone {
      AllSetMeansTaken(c, ss[k].sub);
    }
  }

  /** A reader is unmatched by its own deletion and by nothing else. */
  predicate OwnEndRun(c: Config, ss: seq<State>, acts: seq<Action>) {
    && HonestRun(c, ss, acts)
    && forall i {:trigger acts[i]} :: 0 <= i < |acts| && acts[i] == Unmatch ==> ss[i].sub.reader == Deleted
  }

  lemma UnmatchedStaysDone(c: Config, s: State, a: Action, s': State)
    requires StepOf(c, s, a, s') && ReaderOk(s.sub) && (a == Unmatch ==> s.sub.reader == Deleted)
    requires s.sub.reader == Unmatched ==> s.sub.main == MainDone
    ensures s'.sub.reader == Unmatched ==> s'.sub.main == MainDone
  {
  }

  lemma OwnEndAt(c: Config, ss: seq<State>, acts: seq<Action>, i: nat)
    requires OwnEndRun(c, ss, acts) && i < |acts|
    ensures StepOf(c, ss[i], acts[i], ss[i + 1])
    ensures acts[i] == Unmatch ==> ss[i].sub.reader == Deleted
  {
  }

  lemma {:induction false} UnmatchedMeansDone(c: Config, ss: seq<State>, acts: seq<Action>, k: nat)
    requires OwnEndRun(c, ss, acts) && k < |ss|
    ensures ss[k].sub.reader == Unmatched ==> ss[k].sub.main == MainDone
  {
    if k > 0 {
      UnmatchedMeansDone(c, ss, acts, k - 1);
      UnmatchedDoneNext(c, ss, acts, k - 1);
    }
  }

  lemma UnmatchedDoneNext(c: Config, ss: seq<State>, acts: seq<Action>, k: nat)
    requires OwnEndRun(c, ss, acts) && k < |acts|
    requires ss[k].sub.reader == Unmatched ==> ss[k].sub.main == MainDone
    ensures ss[k + 1].sub.reader == Unmatched ==> ss[k + 1].sub.main == MainDone
  {
    ReaderAlwaysOk(c, ss, acts, k);
    OwnEndAt(c, ss, acts, k);
    UnmatchedStaysDone(c, ss[k], acts[k], ss[k + 1]);
  }

  /** End to end, when a reader is unmatched only by its own deletion: the publisher passes its
      drain wait only after the subscriber has taken every sample and finished. */
  lemma DrainedMeansFinished(c: Config, ss: seq<State>, acts: seq<Action>, k: nat)
    requires OwnEndRun(c, ss, acts) && k < |ss| && ss[k].pub.pc == PubDone
    ensures Finished(c, ss[k].sub)
  {
    RunKeepsInv(c, ss, acts, k);
    ZeroAlwaysExplained(c, ss, acts, k);
    UnmatchedMeansDone(c, ss, acts, k);
    AllSetMeansTaken(c, ss[k].sub);
  }

  /** Without the assumption on other readers: one that matches and leaves before the
      subscriber's reader is created lets the publisher through with nothing delivered. */
  lemma OtherReaderEndsDrain() returns (ss: seq<State>, acts: seq<Action>)
    ensures Run(Config(1, 0), ss, acts)
    ensures ss[|ss| - 1].pub.pc == PubDone && ss[|ss| - 1].sub.reader == Absent
  {
    var c := Config(1, 0);
    ss, acts := [Init(c)], [];
    ss, acts := Extend(c, ss, acts, PubStep);
    ss, acts := Extend(c, ss, acts, PubStep);
    ss, acts := Extend(c, ss, acts, Notify(1));
    ss, acts := Extend(c, ss, acts, CallbackStep);
    ss, acts := Extend(c, ss, acts, CallbackStep);
    ss, acts := Extend(c, ss, acts, Notify(0));
    ss, acts := Extend(c, ss, acts, CallbackStep);
    ss, acts := Extend(c, ss, acts, PubStep);
    ss, acts := Extend(c, ss, acts, PubStep);
    ss, acts := Extend(c, ss, acts, PubStep);
    ss, acts := Extend(c, ss, acts, PubStep);
  }

  lemma Extend(c: Config, ss: seq<State>, acts: seq<Action>, a: Action) returns (ss': seq<State>, acts': seq<Action>)
    requires Run(c, ss, acts) && Enabled(c, ss[|ss| - 1], a)
    ensures Run(c, ss', acts') && ss'[|ss'| - 1] == Step(c, ss[|ss| - 1], a)
    ensures ss <= ss'
  {
    ss', acts' := ss + [Step(c, ss[|ss| - 1], a)], acts + [a];
    forall i | 0 <= i < |acts'|
      ensures StepOf(c, ss'[i], acts'[i], ss'[i + 1])
    {
      if i < |acts| {
        assert StepOf(c, ss[i], acts[i], ss[i + 1]);
      }
    }
  }

  // ---- Nobody waits for ever ----

  predicate PublisherBlocked(p: Publisher) {
    match p.pc
    case PubDone => true
    case LoadEverForMatch => !p.everMatched
    case LoadEver => !p.everMatched || p.matchedCount != 0
    case LoadCount => p.matchedCount != 0
    case _ => false
  }

  predicate MainBlocked(u: Subscriber) {
    u.main == MainDone || (u.main == Poll && !u.allDone)
  }

  /** Nothing is left to deliver and every change of the reader has been reported. */
  predicate EnvironmentSettled(s: State) {
    var p, u := s.pub, s.sub;
    && (forall n: nat :: n < p.written ==> n in u.taken)
    && p.callback == Waiting && u.listener == Idle
    && u.reader != Deleted
    && (u.reader == Matched ==> p.log != [] && p.log[|p.log| - 1] > 0)
    && (u.reader == Unmatched ==> SomePositive(p.log) && p.log[|p.log| - 1] == 0)
  }

  /** No deadlock: if neither process failed, both mains can be left waiting only by having
      finished. */
  lemma SettledMeansFinished(c: Config, ss: seq<State>, acts: seq<Action>, k: nat)
    requires Run(c, ss, acts) && k < |ss|
    requires ss[k].sub.failure == None && PublisherBlocked(ss[k].pub) && MainBlocked(ss[k].sub)
    requires EnvironmentSettled(ss[k])
    ensures ss[k].pub.pc == PubDone && ss[k].sub.main == MainDone
  {
    RunKeepsInv(c, ss, acts, k);
    SettledSubscriber(c, ss[k].sub);
    SettledPublisher(c, ss[k]);
  }

  lemma SettledSubscriber(c: Config, u: Subscriber)
    requires SubOk(c, u) && u.failure == None && MainBlocked(u) && u.listener == Idle
    ensures u.reader == Matched || u.reader == Deleted || u.reader == Unmatched
    ensures TakenAll(c, u) ==> u.main == MainDone && u.reader != Matched
  {
    if TakenAll(c, u) {
      AllTakenMeansSet(c, u);
    }
  }

  /** Between callbacks the publisher's main sees everything that callbacks reported. */
  lemma SettledPublisher(c: Config, s: State)
    requires GateOk(s.pub) && WrittenOk(c, s.pub) && EnvironmentSettled(s) && PublisherBlocked(s.pub)
    requires s.sub.reader == Matched || s.sub.reader == Unmatched
    ensures s.pub.written == Total(c)
    ensures s.sub.reader == Unmatched ==> s.pub.pc == PubDone
  {
    var log := s.pub.log;
    assert log[..|log|] == log;
    assert s.sub.reader == Matched ==> SomePositive(log);
  }

  // ---- The count check after wait_for_historical_data() ----

  predicate Path(c: Config, ss: seq<State>, acts: seq<Action>) {
    |ss| == |acts| + 1 && forall i {:trigger acts[i]} :: 0 <= i < |acts| ==> StepOf(c, ss[i], acts[i], ss[i + 1])
  }

  predicate FallsShort(c: Config, s: State, ss: seq<State>, acts: seq<Action>) {
    Path(c, ss, acts) && ss[0] == s && ss[|ss| - 1].sub.failure == CountShort
  }

  /** Main can report a short count exactly when, at the moment its scan starts, the
      listener has not yet flagged every historical sample. That the samples had been
      delivered by then, as wait_for_historical_data() promises, is not enough. */
  lemma CountCheckCanFail(c: Config, s: State)
    requires Inv(c, s) && s.sub.failure == None && s.sub.main == CountHistorical(0, 0)
    ensures (exists ss, acts :: FallsShort(c, s, ss, acts))
            <==> exists i :: 0 <= i < c.historical && !s.sub.historical[i]
  {
    if exists i :: 0 <= i < c.historical && !s.sub.historical[i] {
      var ss, acts := MainAlone(c, s, 0, 0);
      assert FallsShort(c, s, ss, acts);
    } else {
      forall ss: seq<State>, acts: seq<Action> | Path(c, ss, acts) && ss[0] == s
        ensures ss[|ss| - 1].sub.failure != CountShort
      {
        FullFlagsPass(c, ss, acts, |ss| - 1);
      }
    }
  }

  /** One historical sample, written, delivered and waited for: main is still able to look
      before the listener has been called, and then fails. */
  lemma DeliveredIsNotYetFlagged() returns (ss: seq<State>, acts: seq<Action>)
    ensures Run(Config(1, 0), ss, acts)
    ensures exists k :: 0 <= k < |ss| && ss[k].sub.main == CountHistorical(0, 0) && 0 in ss[k].sub.delivered
    ensures ss[|ss| - 1].sub.failure == CountShort
  {
    var c := Config(1, 0);
    var s0 := Init(c);
    var s1 := Step(c, s0, PubStep);
    var s2 := Step(c, s1, MainStep);
    var s3 := Step(c, s2, Match);
    var s4 := Step(c, s3, Deliver(0));
    var s5 := Step(c, s4, MainStep);
    var s6 := Step(c, s5, MainStep);
    var s7 := Step(c, s6, MainStep);
    ss := [s0, s1, s2, s3, s4, s5, s6, s7];
    acts := [PubStep, MainStep, Match, Deliver(0), MainStep, MainStep, MainStep];
    assert ss[5].sub.main == CountHistorical(0, 0) && 0 in ss[5].sub.delivered;
  }

  /** Main running by itself from a scan that has already missed a flag. */
  lemma {:induction false} MainAlone(c: Config, s: State, i: nat, n: nat) returns (ss: seq<State>, acts: seq<Action>)
    requires Inv(c, s) && s.sub.failure == None && s.sub.main == CountHistorical(i, n)
    requires n < i || exists j :: i <= j < c.historical && !s.sub.historical[j]
    ensures FallsShort(c, s, ss, acts)
    decreases c.historical - i
  {
    var s' := Step(c, s, MainStep);
    StepKeepsInv(c, s, MainStep);
    if i == c.historical {
      ss, acts := [s, s'], [MainStep];
    } else {
      var rest, steps := MainAlone(c, s', i + 1, s'.sub.main.count);
      ss, acts := [s] + rest, [MainStep] + steps;
      forall j | 0 <= j < |acts|
        ensures StepOf(c, ss[j], acts[j], ss[j + 1])
      {
        if j > 0 {
          assert StepOf(c, rest[j - 1], steps[j - 1], rest[j]);
        }
      }
    }
  }

  /** Every historical flag is set and main has counted no other. */
  predicate FlagsInFull(u: Subscriber) {
    && AllSet(u.historical) && u.failure != CountShort
    && (u.main.CountHistorical? ==> u.main.i == u.main.count)
    && u.main != CreateReader && u.main != WaitForHistorical
  }

  ghost predicate CountingInFull(c: Config, s: State) {
    Inv(c, s) && FlagsInFull(s.sub)
  }

  lemma CountStays(c: Config, u: Subscriber)
    requires SizesOk(c, u) && MainOk(u) && FlagsInFull(u)
    ensures FlagsInFull(StepMain(c, u))
  {
  }

  lemma FlagsStay(c: Config, s: State, a: Action)
    requires SizesOk(c, s.sub) && MainOk(s.sub) && FlagsInFull(s.sub) && Enabled(c, s, a)
    ensures FlagsInFull(Step(c, s, a).sub)
  {
    if a.MainStep? {
      CountStays(c, s.sub);
    } else if a.ListenerStep? {
      ListenerStepGrows(c, s.sub);
    }
  }

  lemma {:induction false} FullFlagsPass(c: Config, ss: seq<State>, acts: seq<Action>, k: nat)
    requires Path(c, ss, acts) && k < |ss| && CountingInFull(c, ss[0])
    ensures CountingInFull(c, ss[k])
  {
    if k > 0 {
      FullFlagsPass(c, ss, acts, k - 1);
      assert StepOf(c, ss[k - 1], acts[k - 1], ss[k]);
      StepKeepsInv(c, ss[k - 1], acts[k - 1]);
      FlagsStay(c, ss[k - 1], acts[k - 1]);
    }
  }
}
