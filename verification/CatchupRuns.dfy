/** Which runs of the catch-up handshake exist: when the publisher's drain wait can be passed,
    and which orders of the samples go unnoticed. */
module CatchupRuns {
  import opened CatchupModel
  import opened Catchup

  // ---- Passing the drain wait ----

  /** Can the drain wait be passed on what callbacks have reported so far? */
  predicate CanPass(p: Publisher) {
    p.pc == PubDone
    || (p.pc != PubFailed && p.everMatched && (p.matchedCount == 0 || p.callback == StoreCount(0)))
  }

  /** A path without a further callback on which the publisher passes its drain wait. */
  predicate Passes(c: Config, s: State, ss: seq<State>, acts: seq<Action>) {
    && Path(c, ss, acts) && ss[0] == s && ss[|ss| - 1].pub.pc == PubDone
    && forall i :: 0 <= i < |acts| ==> !acts[i].Notify?
  }

  lemma CannotPassStays(c: Config, s: State, a: Action)
    requires GateOk(s.pub) && Enabled(c, s, a) && !a.Notify? && !CanPass(s.pub)
    ensures !CanPass(Step(c, s, a).pub)
  {
  }

  lemma {:induction false} CannotPassOn(c: Config, ss: seq<State>, acts: seq<Action>, k: nat)
    requires Path(c, ss, acts) && k < |ss| && GateOk(ss[0].pub) && !CanPass(ss[0].pub)
    requires forall i :: 0 <= i < |acts| ==> !acts[i].Notify?
    ensures GateOk(ss[k].pub) && !CanPass(ss[k].pub)
  {
    if k > 0 {
      CannotPassOn(c, ss, acts, k - 1);
      assert StepOf(c, ss[k - 1], acts[k - 1], ss[k]);
      CannotPassStays(c, ss[k - 1], acts[k - 1]);
      StepKeepsGate(c, ss[k - 1], acts[k - 1]);
    }
  }

  /** From any state, whatever else happens, the publisher can pass its drain wait without
      another callback exactly when a match has been reported and the last count stored, or
      about to be stored, is 0. Which readers those counts were about makes no difference. */
  lemma DrainCanPassIff(c: Config, s: State)
    requires GateOk(s.pub) && WrittenOk(c, s.pub)
    ensures (exists ss, acts :: Passes(c, s, ss, acts)) <==> CanPass(s.pub)
  {
    if CanPass(s.pub) {
      var ss, acts := PassingPath(c, s);
      assert Passes(c, s, ss, acts);
    } else {
      forall ss: seq<State>, acts: seq<Action>
        ensures !Passes(c, s, ss, acts)
      {
        if Passes(c, s, ss, acts) {
          CannotPassOn(c, ss, acts, |ss| - 1);
        }
      }
    }
  }

  lemma Prepend(c: Config, s: State, a: Action, rest: seq<State>, steps: seq<Action>)
    requires Enabled(c, s, a) && !a.Notify? && Passes(c, Step(c, s, a), rest, steps)
    ensures Passes(c, s, [s] + rest, [a] + steps)
  {
    var ss, acts := [s] + rest, [a] + steps;
    forall i | 0 <= i < |acts|
      ensures StepOf(c, ss[i], acts[i], ss[i + 1]) && !acts[i].Notify?
    {
      if i > 0 {
        assert StepOf(c, rest[i - 1], steps[i - 1], rest[i]);
      }
    }
  }

  lemma PassingPath(c: Config, s: State) returns (ss: seq<State>, acts: seq<Action>)
    requires WrittenOk(c, s.pub) && CanPass(s.pub)
    ensures Passes(c, s, ss, acts)
  {
    if s.pub.pc == PubDone || s.pub.matchedCount == 0 {
      ss, acts := PublisherAlone(c, s);
    } else {
      ss, acts := PublisherAlone(c, Step(c, s, CallbackStep));
      Prepend(c, s, CallbackStep, ss, acts);
      ss, acts := [s] + ss, [CallbackStep] + acts;
    }
  }

  function StepsLeft(pc: PubPc): nat {
    match pc
    case WriteHistorical => 5
    case LoadEverForMatch => 4
    case WriteLive => 3
    case LoadEver => 2
    case LoadCount => 1
    case _ => 0
  }

  lemma {:induction false} PublisherAlone(c: Config, s: State) returns (ss: seq<State>, acts: seq<Action>)
    requires WrittenOk(c, s.pub) && s.pub.pc != PubFailed
    requires s.pub.pc == PubDone || (s.pub.everMatched && s.pub.matchedCount == 0)
    ensures Passes(c, s, ss, acts)
    decreases StepsLeft(s.pub.pc), Total(c) - s.pub.written
  {
    if s.pub.pc == PubDone {
      ss, acts := [s], [];
    } else {
      StepKeepsWritten(c, s, PubStep);
      ss, acts := PublisherAlone(c, Step(c, s, PubStep));
      Prepend(c, s, PubStep, ss, acts);
      ss, acts := [s] + ss, [PubStep] + acts;
    }
  }

  // ---- Failures ----

  /** A time-out or a failed take ends its process: a failed subscriber does nothing more
      (only its reader may still get samples and be unmatched), and a failed publisher writes
      nothing more. */
  lemma FailuresAreFinal(c: Config, ss: seq<State>, acts: seq<Action>, k: nat)
    requires Run(c, ss, acts) && k < |acts|
    ensures acts[k] == MainTimeout ==> ss[k + 1].sub == ss[k].sub.(failure := TimedOut)
    ensures acts[k] == TakeFails ==> ss[k + 1].sub == ss[k].sub.(failure := TakeError)
    ensures acts[k] == PubTimeout ==> ss[k + 1].pub == ss[k].pub.(pc := PubFailed)
    ensures ss[k].sub.failure != None ==>
              ss[k + 1].sub == ss[k].sub.(reader := ss[k + 1].sub.reader, delivered := ss[k + 1].sub.delivered)
    ensures ss[k].pub.pc == PubFailed ==>
              ss[k + 1].pub.pc == PubFailed && ss[k + 1].pub.written == ss[k].pub.written
  {
    assert StepOf(c, ss[k], acts[k], ss[k + 1]);
  }

  // ---- The order of the samples ----

  /** Samples taken as they were written, each once. */
  predicate InOrder(taken: seq<nat>) {
    forall i :: 0 <= i < |taken| ==> taken[i] == i
  }

  predicate HistoryFirst(c: Config, taken: seq<nat>) {
    forall i, j | 0 <= i < |taken| && 0 <= j < |taken| && taken[i] < c.historical <= taken[j] :: i < j
  }

  /** When samples are taken in order, a confirmed historical batch has been taken as numbers
      0 to historical - 1 in this order, and before any live sample. */
  lemma ConfirmedInOrder(c: Config, ss: seq<State>, acts: seq<Action>, k: nat)
    requires Run(c, ss, acts) && k < |ss| && ss[k].sub.confirmed && InOrder(ss[k].sub.taken)
    ensures |ss[k].sub.taken| >= c.historical
    ensures forall i :: 0 <= i < c.historical ==> ss[k].sub.taken[i] == i
    ensures HistoryFirst(c, ss[k].sub.taken)
  {
    RunKeepsInv(c, ss, acts, k);
    var u := ss[k].sub;
    if c.historical > 0 {
      assert Flagged(c, u, c.historical - 1);
      assert c.historical - 1 in u.taken;
    }
  }

  /** Once the batch is confirmed, no historical flag changes any more. */
  lemma {:induction false} HistoryIsClosed(c: Config, ss: seq<State>, acts: seq<Action>, k: nat, j: nat)
    requires Run(c, ss, acts) && k <= j < |ss| && ss[k].sub.confirmed
    ensures ss[j].sub.confirmed && ss[j].sub.historical == ss[k].sub.historical
  {
    if k < j {
      HistoryIsClosed(c, ss, acts, k, j - 1);
      assert StepOf(c, ss[j - 1], acts[j - 1], ss[j]);
      RunKeepsInv(c, ss, acts, j - 1);
      ConfirmedStays(c, ss[j - 1], acts[j - 1]);
    }
  }

  lemma ConfirmedStays(c: Config, s: State, a: Action)
    requires SizesOk(c, s.sub) && MainOk(s.sub) && Enabled(c, s, a) && s.sub.confirmed
    ensures Step(c, s, a).sub.confirmed && Step(c, s, a).sub.historical == s.sub.historical
  {
    if a.ListenerStep? && s.sub.listener.StoreHistorical? {
      assert s.sub.historical[s.sub.listener.n := true] == s.sub.historical;
    }
  }

  /** A historical sample was taken behind one with a higher number. */
  predicate Inverted(c: Config, taken: seq<nat>) {
    exists i, j :: 0 <= i < j < |taken| && taken[j] < taken[i] < c.historical
  }

  /** A live flag is set while main still waits for the historical batch. */
  predicate LiveIsEarly(s: State) {
    s.sub.main == WaitForHistorical && exists i :: 0 <= i < |s.sub.live| && s.sub.live[i]
  }

  predicate EndsWell(c: Config, ss: seq<State>, acts: seq<Action>) {
    Run(c, ss, acts) && ss[|ss| - 1].sub.main == MainDone && ss[|ss| - 1].sub.failure == None
  }

  predicate InvertedUnnoticed(c: Config, ss: seq<State>, acts: seq<Action>) {
    EndsWell(c, ss, acts) && Inverted(c, ss[|ss| - 1].sub.taken)
  }

  predicate EarlyUnnoticed(c: Config, ss: seq<State>, acts: seq<Action>, k: nat) {
    EndsWell(c, ss, acts) && InOrder(ss[|ss| - 1].sub.taken) && k < |ss| && LiveIsEarly(ss[k])
  }

  /** A subscriber can finish successfully with its historical batch out of order exactly when
      the batch has two samples; by ConfirmedInOrder it takes a channel that reorders. */
  lemma OutOfOrderUnnoticedIff(c: Config)
    ensures (exists ss, acts :: InvertedUnnoticed(c, ss, acts)) <==> c.historical >= 2
  {
    if c.historical >= 2 {
      var order := Swapped(Total(c));
      SwappedHasAll(Total(c));
      var ss, acts := TakesAll(c, order);
      ss, acts := MainFinishes(c, ss, acts);
      assert order[1] < order[0] < c.historical;
      assert InvertedUnnoticed(c, ss, acts);
    }
  }

  /** Even when samples are taken in order, a subscriber can finish successfully that counted
      live samples before the wait for the historical batch was over, exactly when there are
      any. */
  lemma EarlyLiveUnnoticedIff(c: Config)
    ensures (exists ss, acts, k :: EarlyUnnoticed(c, ss, acts, k)) <==> c.live > 0
  {
    if c.live > 0 {
      var order := seq(Total(c), i requires 0 <= i < Total(c) => i);
      forall n: nat | n < Total(c)
        ensures n in order
      {
        assert order[n] == n;
      }
      var ss, acts := TakesAll(c, order);
      var k := |ss| - 1;
      assert ss[k].sub.live[0];
      ss, acts := MainFinishes(c, ss, acts);
      assert EarlyUnnoticed(c, ss, acts, k);
    } else {
      forall ss: seq<State>, acts: seq<Action>, k: nat
        ensures !EarlyUnnoticed(c, ss, acts, k)
      {
        if EarlyUnnoticed(c, ss, acts, k) {
          RunKeepsInv(c, ss, acts, k);
        }
      }
    }
  }

  /** 1, 0, 2, 3, and so on. */
  function Swapped(n: nat): seq<nat>
    requires n >= 2
  {
    seq(n, i requires 0 <= i < n => if i < 2 then 1 - i else i)
  }

  lemma SwappedHasAll(n: nat)
    requires n >= 2
    ensures forall m: nat :: m < n ==> m in Swapped(n)
  {
    forall m: nat | m < n
      ensures m in Swapped(n)
    {
      assert Swapped(n)[if m < 2 then 1 - m else m] == m;
    }
  }

  // ---- Runs in which main waits until everything has been taken ----

  lemma WriteUpTo(c: Config, ss: seq<State>, acts: seq<Action>, n: nat)
    returns (ss': seq<State>, acts': seq<Action>)
    requires Run(c, ss, acts)
    requires var p := ss[|ss| - 1].pub;
             p.written <= n <= (if p.pc == WriteHistorical then c.historical else Total(c))
             && (p.pc == WriteHistorical || p.pc == WriteLive)
    ensures Run(c, ss', acts')
    ensures var s := ss[|ss| - 1]; ss'[|ss'| - 1] == s.(pub := s.pub.(written := n))
    decreases n - ss[|ss| - 1].pub.written
  {
    if ss[|ss| - 1].pub.written == n {
      ss', acts' := ss, acts;
    } else {
      ss', acts' := Extend(c, ss, acts, PubStep);
      ss', acts' := WriteUpTo(c, ss', acts', n);
    }
  }

  /** Both batches are written and a reader is matched. */
  lemma AllWritten(c: Config) returns (ss: seq<State>, acts: seq<Action>)
    ensures Run(c, ss, acts)
    ensures ss[|ss| - 1].pub.written == Total(c)
    ensures ss[|ss| - 1].sub == Init(c).sub.(main := WaitForHistorical, reader := Matched)
  {
    ss, acts := [Init(c)], [];
    ss, acts := WriteUpTo(c, ss, acts, c.historical);
    ss, acts := Extend(c, ss, acts, PubStep);
    ss, acts := Extend(c, ss, acts, Notify(1));
    ss, acts := Extend(c, ss, acts, CallbackStep);
    ss, acts := Extend(c, ss, acts, CallbackStep);
    ss, acts := Extend(c, ss, acts, PubStep);
    ss, acts := WriteUpTo(c, ss, acts, Total(c));
    ss, acts := Extend(c, ss, acts, MainStep);
    ss, acts := Extend(c, ss, acts, Match);
  }

  lemma DeliverUpTo(c: Config, ss: seq<State>, acts: seq<Action>, n: nat)
    returns (ss': seq<State>, acts': seq<Action>)
    requires Run(c, ss, acts) && ss[|ss| - 1].sub.reader == Matched && n <= ss[|ss| - 1].pub.written
    ensures Run(c, ss', acts')
    ensures var (u, u') := (ss[|ss| - 1].sub, ss'[|ss'| - 1].sub);
            u' == u.(delivered := u'.delivered) && forall m: nat :: m < n ==> m in u'.delivered
    ensures ss'[|ss'| - 1].pub == ss[|ss| - 1].pub
  {
    if n == 0 {
      ss', acts' := ss, acts;
    } else {
      ss', acts' := DeliverUpTo(c, ss, acts, n - 1);
      ss', acts' := Extend(c, ss', acts', Deliver(n - 1));
    }
  }

  /** Between two takes of a callback that main is not waiting for. */
  predicate Taking(c: Config, s: State) {
    && s.sub.listener == Take(false) && s.sub.main == WaitForHistorical && s.sub.reader == Matched
    && !s.sub.confirmed && !s.sub.allDone && s.sub.failure == None && SizesOk(c, s.sub)
    && forall n: nat :: n < Total(c) ==> n in s.sub.delivered
  }

  lemma TakeOne(c: Config, ss: seq<State>, acts: seq<Action>, n: nat)
    returns (ss': seq<State>, acts': seq<Action>)
    requires Run(c, ss, acts) && Taking(c, ss[|ss| - 1]) && n < Total(c)
    ensures Run(c, ss', acts') && Taking(c, ss'[|ss'| - 1])
    ensures ss'[|ss'| - 1].sub.taken == ss[|ss| - 1].sub.taken + [n]
  {
    ss', acts' := Extend(c, ss, acts, TakeSample(n));
    ss', acts' := Extend(c, ss', acts', ListenerStep);
    if n >= c.historical {
      ss', acts' := Extend(c, ss', acts', ListenerStep);
      ss', acts' := Extend(c, ss', acts', ListenerStep);
    }
  }

  lemma {:induction false} TakeInOrder(c: Config, ss: seq<State>, acts: seq<Action>, order: seq<nat>)
    returns (ss': seq<State>, acts': seq<Action>)
    requires Run(c, ss, acts) && Taking(c, ss[|ss| - 1]) && ss[|ss| - 1].sub.taken == []
    requires forall i :: 0 <= i < |order| ==> order[i] < Total(c)
    ensures Run(c, ss', acts') && Taking(c, ss'[|ss'| - 1])
    ensures ss'[|ss'| - 1].sub.taken == order
    decreases |order|
  {
    if order == [] {
      ss', acts' := ss, acts;
    } else {
      var n := |order| - 1;
      ss', acts' := TakeInOrder(c, ss, acts, order[..n]);
      ss', acts' := TakeOne(c, ss', acts', order[n]);
      assert order[..n] + [order[n]] == order;
    }
  }

  /** Main has still to see that all flags are set. */
  predicate Finishing(c: Config, u: Subscriber) {
    && u.failure == None && (u.reader == Matched || u.main == MainDone)
    && SizesOk(c, u) && AllSet(u.historical) && AllSet(u.live)
    && (u.main.CountHistorical? ==> u.main.i == u.main.count <= c.historical)
    && (u.main.MainScan? ==> u.confirmed && u.main.i <= c.live)
    && (u.main == MainLoadConfirmed ==> u.confirmed)
    && (u.main == Poll ==> u.allDone)
    && u.main != CreateReader
  }

  /** A run in which all samples are taken in the given order before the wait for the
      historical batch is over. */
  lemma TakesAll(c: Config, order: seq<nat>) returns (ss: seq<State>, acts: seq<Action>)
    requires forall i :: 0 <= i < |order| ==> order[i] < Total(c)
    requires forall n: nat :: n < Total(c) ==> n in order
    ensures Run(c, ss, acts)
    ensures var u := ss[|ss| - 1].sub;
            u.taken == order && u.main == WaitForHistorical && Finishing(c, u)
  {
    ss, acts := AllWritten(c);
    ss, acts := DeliverUpTo(c, ss, acts, Total(c));
    ss, acts := Extend(c, ss, acts, ListenerStart);
    ss, acts := TakeInOrder(c, ss, acts, order);
    RunKeepsInv(c, ss, acts, |ss| - 1);
    AllTakenMeansSet(c, ss[|ss| - 1].sub);
  }

  function MainLeft(c: Config, pc: MainPc): nat {
    match pc
    case CreateReader => c.historical + c.live + 10
    case WaitForHistorical => c.historical + c.live + 9
    case CountHistorical(i, _) => c.live + 8 + if i < c.historical then c.historical - i else 0
    case StoreConfirmed => c.live + 7
    case MainLoadConfirmed => c.live + 6
    case MainScan(i) => 5 + if i < c.live then c.live - i else 0
    case MainStoreDone => 4
    case Poll => 3
    case DeleteReader => 2
    case MainDone => 0
  }

  lemma {:induction false} MainFinishes(c: Config, ss: seq<State>, acts: seq<Action>)
    returns (ss': seq<State>, acts': seq<Action>)
    requires Run(c, ss, acts) && Finishing(c, ss[|ss| - 1].sub)
    ensures EndsWell(c, ss', acts') && ss <= ss'
    ensures ss'[|ss'| - 1].sub.taken == ss[|ss| - 1].sub.taken
    decreases MainLeft(c, ss[|ss| - 1].sub.main)
  {
    if ss[|ss| - 1].sub.main == MainDone {
      ss', acts' := ss, acts;
    } else {
      FinishingStays(c, ss[|ss| - 1].sub);
      ss', acts' := Extend(c, ss, acts, MainStep);
      ss', acts' := MainFinishes(c, ss', acts');
    }
  }

  lemma FinishingStays(c: Config, u: Subscriber)
    requires Finishing(c, u) && u.main != MainDone
    ensures Finishing(c, StepMain(c, u)) && MainLeft(c, StepMain(c, u).main) < MainLeft(c, u.main)
    ensures StepMain(c, u).taken == u.taken
  {
  }
}
