/** The catch-up handshake: publisher main, its matched callback, subscriber main and its
    data listener, interleaved one atomic load or store at a time, with a channel between
    them that invents no sample; it may reorder, delay and repeat the samples it was given.
    `Config` fixes the sizes of the two batches. */
module CatchupModel {

  datatype Config = Config(historical: nat, live: nat)

  function Total(c: Config): nat {
    c.historical + c.live
  }

  // ---- Publisher ----

  datatype PubPc = WriteHistorical | LoadEverForMatch | WriteLive | LoadEver | LoadCount | PubDone | PubFailed

  /** The callback is handed a matched count, stores it, then stores `ever_matched`. */
  datatype CallbackPc = Waiting | StoreCount(c: nat) | StoreEver

  /** Samples 0 to written - 1 have been written. `log` lists the counts that
      callbacks were handed, oldest first; no code reads it. */
  datatype Publisher = Publisher(pc: PubPc, callback: CallbackPc, written: nat,
                                 everMatched: bool, matchedCount: nat, log: seq<nat>)

  // ---- Subscriber ----

  datatype MainPc =
    | CreateReader
    | WaitForHistorical
    | CountHistorical(i: nat, count: nat)
    | StoreConfirmed
    | MainLoadConfirmed
    | MainScan(i: nat)
    | MainStoreDone
    | Poll
    | DeleteReader
    | MainDone

  /** `became` is the callback's own became_done flag. */
  datatype ListenerPc =
    | Idle
    | Take(became: bool)
    | StoreHistorical(n: nat, became: bool)
    | StoreLive(n: nat, became: bool)
    | LoadDone(became: bool)
    | LoadConfirmed
    | Scan(i: nat)
    | StoreDone

  /** Why the subscriber process ended early, if it did. */
  datatype Failure = None | CountShort | TimedOut | TakeError | UnexpectedSample

  /** The reader moves from left to right; `Unmatched` is how the publisher sees its end. */
  datatype Reader = Absent | Created | Matched | Deleted | Unmatched

  /** `delivered` holds the numbers of the samples that have reached the reader; `taken`
      lists, in order, those that the listener has taken from it, and no code reads it. */
  datatype Subscriber = Subscriber(main: MainPc, listener: ListenerPc, failure: Failure,
                                   reader: Reader, delivered: set<nat>, taken: seq<nat>,
                                   historical: seq<bool>, live: seq<bool>,
                                   confirmed: bool, allDone: bool)

  datatype State = State(pub: Publisher, sub: Subscriber)

  datatype Action =
    | PubStep
    | PubTimeout
    | Notify(count: nat)
    | CallbackStep
    | Match
    | Deliver(n: nat)
    | Unmatch
    | MainStep
    | MainTimeout
    | ListenerStart
    | ListenerStep
    | TakeSample(n: nat)
    | TakeInvalid
    | TakeNoData
    | TakeFails

  function Init(c: Config): State {
    State(Publisher(WriteHistorical, Waiting, 0, false, 0, []),
          Subscriber(CreateReader, Idle, None, Absent, {}, [],
                     seq(c.historical, _ => false), seq(c.live, _ => false), false, false))
  }

  // ---- Publisher steps ----

  function StepPublisher(c: Config, p: Publisher): Publisher {
    match p.pc
    case WriteHistorical =>
      if p.written < c.historical then p.(written := p.written + 1) else p.(pc := LoadEverForMatch)
    case LoadEverForMatch => if p.everMatched then p.(pc := WriteLive) else p
    case WriteLive => if p.written < Total(c) then p.(written := p.written + 1) else p.(pc := LoadEver)
    case LoadEver => if p.everMatched then p.(pc := LoadCount) else p
    case LoadCount => if p.matchedCount == 0 then p.(pc := PubDone) else p.(pc := LoadEver)
    case PubDone => p
    case PubFailed => p
  }

  function StepCallback(p: Publisher): Publisher {
    match p.callback
    case Waiting => p
    case StoreCount(n) => p.(matchedCount := n, callback := if n > 0 then StoreEver else Waiting)
    case StoreEver => p.(everMatched := true, callback := Waiting)
  }

  // ---- Subscriber steps ----

  function StepMain(c: Config, s: Subscriber): Subscriber {
    match s.main
    case CreateReader => s.(reader := Created, main := WaitForHistorical)
    case WaitForHistorical => s.(main := CountHistorical(0, 0))
    case CountHistorical(i, n) =>
      if i < |s.historical| then s.(main := CountHistorical(i + 1, if s.historical[i] then n + 1 else n))
      else if n != c.historical then s.(failure := CountShort)
      else s.(main := StoreConfirmed)
    case StoreConfirmed => s.(confirmed := true, main := MainLoadConfirmed)
    case MainLoadConfirmed => s.(main := if s.confirmed then MainScan(0) else Poll)
    case MainScan(i) =>
      if i < |s.live| then s.(main := if s.live[i] then MainScan(i + 1) else Poll)
      else s.(main := MainStoreDone)
    case MainStoreDone => s.(allDone := true, main := Poll)
    case Poll => if s.allDone then s.(main := DeleteReader) else s
    case DeleteReader => s.(reader := Deleted, main := MainDone)
    case MainDone => s
  }

  /** The listener takes the sample with number n. */
  function StepTake(c: Config, s: Subscriber, n: nat): Subscriber
    requires s.listener.Take?
  {
    var b, s' := s.listener.became, s.(taken := s.taken + [n]);
    if n < c.historical then s'.(listener := StoreHistorical(n, b))
    else if n < Total(c) then s'.(listener := StoreLive(n - c.historical, b))
    else s'.(failure := UnexpectedSample)
  }

  /** What the listener does between two takes. */
  function StepListener(s: Subscriber): Subscriber
    requires s.listener.StoreHistorical? ==> s.listener.n < |s.historical|
    requires s.listener.StoreLive? ==> s.listener.n < |s.live|
  {
    match s.listener
    case Idle => s
    case Take(_) => s
    case StoreHistorical(n, b) => s.(historical := s.historical[n := true], listener := Take(b))
    case StoreLive(n, b) => s.(live := s.live[n := true], listener := LoadDone(b))
    case LoadDone(b) => s.(listener := if s.allDone || b then Take(b) else LoadConfirmed)
    case LoadConfirmed => s.(listener := if s.confirmed then Scan(0) else Take(false))
    case Scan(i) =>
      if i < |s.live| then s.(listener := if s.live[i] then Scan(i + 1) else Take(false))
      else s.(listener := Take(true))
    case StoreDone => s.(allDone := true, listener := Idle)
  }

  // ---- The whole system ----

  predicate NothingLeft(u: Subscriber) {
    forall n: nat :: n in u.delivered ==> n in u.taken
  }

  /** A process that failed takes no more steps. wait_for_historical_data() succeeds only
      once a writer has matched. A take finds any sample that has reached the reader, an
      earlier one again included; no data means that all of them have been taken, or that
      the reader is being deleted. */
  predicate Enabled(c: Config, s: State, a: Action) {
    var p, u := s.pub, s.sub;
    match a
    case PubStep => true
    case PubTimeout => p.pc == LoadEverForMatch || p.pc == LoadEver
    case Notify(_) => p.callback == Waiting
    case CallbackStep => p.callback != Waiting
    case Match => u.reader == Created
    case Deliver(n) => u.reader == Matched && n < p.written
    case Unmatch => u.reader == Deleted || (u.failure != None && u.reader != Absent && u.reader != Unmatched)
    case MainStep => u.failure == None && (u.main == WaitForHistorical ==> u.reader == Matched)
    case MainTimeout => u.failure == None && (u.main == WaitForHistorical || u.main == Poll)
    case ListenerStart => u.failure == None && u.listener == Idle && u.reader != Absent
    case ListenerStep =>
      && u.failure == None && u.listener != Idle && !u.listener.Take?
      && (u.listener.StoreHistorical? ==> u.listener.n < |u.historical|)
      && (u.listener.StoreLive? ==> u.listener.n < |u.live|)
    case TakeSample(n) => u.failure == None && u.listener.Take? && n in u.delivered
    case TakeInvalid => u.failure == None && u.listener.Take?
    case TakeNoData =>
      u.failure == None && u.listener.Take? && (NothingLeft(u) || u.reader != Matched)
    case TakeFails => u.failure == None && u.listener.Take?
  }

  function Step(c: Config, s: State, a: Action): State
    requires Enabled(c, s, a)
  {
    var p, u := s.pub, s.sub;
    match a
    case PubStep => s.(pub := StepPublisher(c, p))
    case PubTimeout => s.(pub := p.(pc := PubFailed))
    case Notify(n) => s.(pub := p.(callback := StoreCount(n), log := p.log + [n]))
    case CallbackStep => s.(pub := StepCallback(p))
    case Match => s.(sub := u.(reader := Matched))
    case Deliver(n) => s.(sub := u.(delivered := u.delivered + {n}))
    case Unmatch => s.(sub := u.(reader := Unmatched))
    case MainStep => s.(sub := StepMain(c, u))
    case MainTimeout => s.(sub := u.(failure := TimedOut))
    case ListenerStart => s.(sub := u.(listener := Take(false)))
    case ListenerStep => s.(sub := StepListener(u))
    case TakeSample(n) => s.(sub := StepTake(c, u, n))
    case TakeInvalid => s
    case TakeNoData => s.(sub := u.(listener := if u.listener.became then StoreDone else Idle))
    case TakeFails => s.(sub := u.(failure := TakeError))
  }

  predicate StepOf(c: Config, s: State, a: Action, s': State) {
    Enabled(c, s, a) && Step(c, s, a) == s'
  }

  predicate Run(c: Config, ss: seq<State>, acts: seq<Action>) {
    && |ss| == |acts| + 1
    && ss[0] == Init(c)
    && forall i {:trigger acts[i]} :: 0 <= i < |acts| ==> StepOf(c, ss[i], acts[i], ss[i + 1])
  }
}
